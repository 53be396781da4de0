/** The kernel's pages of 4096 bytes: the virtual page bitmap, the page table and
    the frame bitmap, and their agreement. */
module KernelPages {
  import B = Bitmaps

  const HEAP_START: nat := 0xc010_0000

  /** A page table entry names a frame by its physical address; taking a page out
      clears the present bit only. */
  datatype Pte = Pte(phys: nat, present: bool)

  /** `vbits` and `ptes` are indexed by the page's number from HEAP_START, with
      all page directories present; `frames` covers the frames from `start`. */
  datatype Memory = Memory(vbits: seq<bool>, ptes: seq<Pte>, frames: seq<bool>, start: nat)

  function FrameOf(m: Memory, p: nat): int
    requires p < |m.ptes|
  {
    (m.ptes[p].phys - m.start) / 4096
  }

  /** The entry names a frame that is taken. */
  predicate Backed(m: Memory, p: nat)
    requires p < |m.ptes|
  {
    && m.ptes[p].phys >= m.start && (m.ptes[p].phys - m.start) % 4096 == 0
    && 0 <= FrameOf(m, p) < |m.frames| && m.frames[FrameOf(m, p)]
  }

  /** Agreement, but for the pages from `a` up to `b`: their bits are set and
      their entries not present. */
  ghost predicate Partly(m: Memory, a: nat, b: nat) {
    && |m.ptes| == |m.vbits| && a <= b <= |m.vbits|
    && (forall p :: 0 <= p < |m.vbits| ==> (m.vbits[p] <==> m.ptes[p].present || a <= p < b))
    && (forall p :: a <= p < b ==> !m.ptes[p].present)
    && (forall p :: 0 <= p < |m.ptes| && m.ptes[p].present ==> Backed(m, p))
    && (forall p, q :: 0 <= p < q < |m.ptes| && m.ptes[p].present && m.ptes[q].present ==>
          FrameOf(m, p) != FrameOf(m, q))
  }

  /** A page's bit is set exactly when its entry is present; present pages have
      distinct frames, which are taken. */
  ghost predicate Agree(m: Memory) { Partly(m, 0, 0) }

  lemma EmptyGap(m: Memory, a: nat)
    requires a <= |m.vbits|
    ensures Partly(m, a, a) <==> Agree(m)
  {}

  /** The bits from a up to b set to x. */
  function Filled(bits: seq<bool>, a: nat, b: nat, x: bool): (r: seq<bool>)
    ensures |r| == |bits|
    ensures forall p :: 0 <= p < |bits| ==> r[p] == if a <= p < b then x else bits[p]
  {
    seq(|bits|, p requires 0 <= p < |bits| => if a <= p < b then x else bits[p])
  }

  lemma FilledBack(bits: seq<bool>, a: nat, b: nat)
    requires forall p :: a <= p < b && p < |bits| ==> !bits[p]
    ensures Filled(Filled(bits, a, b, true), a, b, false) == bits
  {}

  /** The frames without those of the pages from a up to b. */
  function Cleared(m: Memory, a: nat, b: nat): (r: seq<bool>)
    requires a <= b <= |m.ptes|
    ensures |r| == |m.frames|
  {
    if a == b then m.frames
    else
      var r := Cleared(m, a, b - 1);
      if 0 <= FrameOf(m, b - 1) < |r| then r[FrameOf(m, b - 1) := false] else r
  }

  // ---------- Mapping ----------

  /** palloc and page_table_add for page p. */
  function Map(m: Memory, p: nat): Memory
    requires p < |m.ptes| && B.CountFree(m.frames) > 0
  {
    B.FullIffNoneFree(m.frames);
    var f := B.FirstFree(m.frames);
    m.(frames := m.frames[f := true], ptes := m.ptes[p := Pte(m.start + 4096 * f, true)])
  }

  lemma MapKeeps(m: Memory, p: nat, b: nat)
    requires Partly(m, p, b) && p < b && B.CountFree(m.frames) > 0
    ensures Partly(Map(m, p), p + 1, b) && FrameOf(Map(m, p), p) == B.FirstFree(m.frames)
    ensures B.CountFree(Map(m, p).frames) == B.CountFree(m.frames) - 1
  {
    B.FullIffNoneFree(m.frames);
    B.CountFreeUpdate(m.frames, B.FirstFree(m.frames));
    var u := Map(m, p);
    assert FrameOf(u, p) == B.FirstFree(m.frames);
    forall q | 0 <= q < |u.ptes| && q != p
      ensures FrameOf(u, q) == FrameOf(m, q)
    {}
  }

  lemma FrameAddress(start: nat, phys: nat, n: nat)
    requires start % 4096 == 0 && phys >= start && (phys - start) % 4096 == 0 && (phys - start) / 4096 < n
    ensures phys % 4096 == 0 && phys < start + 4096 * n
  {
    var f := (phys - start) / 4096;
    assert phys == start + 4096 * f;
  }

  /** Clearing the frames of pages untouched by the change of a frame. */
  lemma {:induction false} ClearedSame(m: Memory, u: Memory, a: nat, b: nat, f: nat)
    requires a <= b <= |m.ptes| && |u.ptes| == |m.ptes| && u.start == m.start && f < |m.frames|
    requires forall q :: a <= q < b ==> u.ptes[q] == m.ptes[q]
    requires u.frames == m.frames[f := true]
    ensures Cleared(u, a, b)[f := false] == Cleared(m, a, b)[f := false]
    decreases b - a
  {
    if a < b {
      ClearedSame(m, u, a, b - 1, f);
      assert FrameOf(u, b - 1) == FrameOf(m, b - 1);
      var g := FrameOf(m, b - 1);
      if 0 <= g < |m.frames| && g != f {
        assert Cleared(u, a, b)[f := false] == Cleared(u, a, b - 1)[f := false][g := false];
        assert Cleared(m, a, b)[f := false] == Cleared(m, a, b - 1)[f := false][g := false];
      } else if g == f {
        assert Cleared(u, a, b)[f := false] == Cleared(u, a, b - 1)[f := false];
        assert Cleared(m, a, b)[f := false] == Cleared(m, a, b - 1)[f := false];
      }
    }
  }

  /** Clearing never takes a frame. */
  lemma {:induction false} ClearedClear(m: Memory, a: nat, b: nat, f: nat)
    requires a <= b <= |m.ptes| && f < |m.frames| && !m.frames[f]
    ensures !Cleared(m, a, b)[f]
    decreases b - a
  {
    if a < b { ClearedClear(m, a, b - 1, f); }
  }

  /** To map one more page and clear its frame again changes nothing. */
  lemma MapCleared(m: Memory, a: nat, p: nat, b: nat)
    requires Partly(m, p, b) && a <= p < b && B.CountFree(m.frames) > 0
    ensures Cleared(Map(m, p), a, p + 1) == Cleared(m, a, p)
  {
    B.FullIffNoneFree(m.frames);
    var u, f := Map(m, p), B.FirstFree(m.frames);
    MapKeeps(m, p, b);
    ClearedSame(m, u, a, p, f);
    ClearedClear(m, a, p, f);
    assert Cleared(m, a, p)[f := false] == Cleared(m, a, p);
  }

  // ---------- Unmapping ----------

  /** pfree of the page's frame and page_table_pte_remove. */
  function Unmap(m: Memory, p: nat): Memory
    requires p < |m.ptes| && 0 <= FrameOf(m, p) < |m.frames|
  {
    m.(frames := m.frames[FrameOf(m, p) := false], ptes := m.ptes[p := m.ptes[p].(present := false)])
  }

  lemma UnmapKeeps(m: Memory, a: nat, p: nat)
    requires Partly(m, a, p) && p < |m.ptes| && m.ptes[p].present
    ensures 0 <= FrameOf(m, p) < |m.frames|
    ensures Partly(Unmap(m, p), a, p + 1)
  {
    var u := Unmap(m, p);
    forall q | 0 <= q < |u.ptes|
      ensures FrameOf(u, q) == FrameOf(m, q)
    {}
    forall q | 0 <= q < |u.ptes| && u.ptes[q].present
      ensures Backed(u, q)
    {
      assert Backed(m, q);
      assert FrameOf(m, q) != FrameOf(m, p);
    }
  }

  /** Unmapping in the order of the loop clears what Cleared clears. */
  lemma {:induction false} ClearedOnly(m: Memory, u: Memory, a: nat, b: nat)
    requires a <= b <= |m.ptes| && |u.ptes| == |m.ptes| && u.start == m.start && u.frames == m.frames
    requires forall q :: a <= q < b ==> u.ptes[q].phys == m.ptes[q].phys
    ensures Cleared(u, a, b) == Cleared(m, a, b)
    decreases b - a
  {
    if a < b { ClearedOnly(m, u, a, b - 1); }
  }

  /** When the loop is done the bits follow, and all agree again. */
  lemma DropKeeps(m: Memory, a: nat, b: nat)
    requires Partly(m, a, b)
    ensures Agree(m.(vbits := Filled(m.vbits, a, b, false)))
  {
    var u := m.(vbits := Filled(m.vbits, a, b, false));
    forall q | 0 <= q < |u.ptes|
      ensures FrameOf(u, q) == FrameOf(m, q) && (Backed(u, q) <==> Backed(m, q))
    {}
  }

  lemma TakeKeeps(m: Memory, a: nat, b: nat)
    requires Agree(m) && a <= b && B.FreeRun(m.vbits, a, b - a)
    ensures Partly(m.(vbits := Filled(m.vbits, a, b, true)), a, b)
  {
    var u := m.(vbits := Filled(m.vbits, a, b, true));
    forall q | 0 <= q < |u.ptes|
      ensures FrameOf(u, q) == FrameOf(m, q) && (Backed(u, q) <==> Backed(m, q))
    {}
  }

  // ---------- Whole calls ----------

  /** n pages from page a on, taken in m and in u: nothing else changed, and
      giving them back would restore the frames. */
  ghost predicate Taken(m: Memory, u: Memory, a: nat, n: nat) {
    && |m.ptes| == |m.vbits| && B.FirstFit(m.vbits, n, a) && u.start == m.start && |u.frames| == |m.frames|
    && u.vbits == Filled(m.vbits, a, a + n, true)
    && |u.ptes| == |m.ptes|
    && (forall q :: 0 <= q < |m.ptes| && !(a <= q < a + n) ==> u.ptes[q] == m.ptes[q])
    && (forall q :: a <= q < a + n ==> u.ptes[q].present)
    && Cleared(u, a, a + n) == m.frames
    && B.CountFree(u.frames) + n == B.CountFree(m.frames)
  }

  ghost predicate GivenBack(m: Memory, u: Memory, a: nat, n: nat) {
    && |m.ptes| == |m.vbits| && a + n <= |m.ptes| && u.start == m.start
    && u.vbits == Filled(m.vbits, a, a + n, false)
    && u.frames == Cleared(m, a, a + n)
    && |u.ptes| == |m.ptes|
    && (forall q :: 0 <= q < |m.ptes| && !(a <= q < a + n) ==> u.ptes[q] == m.ptes[q])
    && (forall q :: a <= q < a + n ==> u.ptes[q] == m.ptes[q].(present := false))
  }

  /** mfree_page of what malloc_page returned restores the page bitmap, the frame
      bitmap and which pages are present. */
  lemma FreeUndoesMalloc(m: Memory, u: Memory, w: Memory, a: nat, n: nat)
    requires Agree(m) && Taken(m, u, a, n) && GivenBack(u, w, a, n)
    ensures w.vbits == m.vbits && w.frames == m.frames
    ensures forall q :: 0 <= q < |m.ptes| ==>
              w.ptes[q].present == m.ptes[q].present && (m.ptes[q].present ==> w.ptes[q] == m.ptes[q])
  {
    FilledBack(m.vbits, a, a + n);
  }

  /** The addresses of the page table entries, pte_ptr: entries follow one another
      in the last four megabytes. */
  function PtePtr(vaddr: nat): nat {
    0xffc0_0000 + vaddr / 0x40_0000 * 0x40_0000 / 1024 + vaddr / 4096 % 1024 * 4
  }

  lemma PtePtrLinear(v: nat)
    ensures PtePtr(v) == 0xffc0_0000 + 4 * (v / 4096)
  {
    var d, t, o := v / 0x40_0000, v / 4096 % 1024, v % 4096;
    assert v / 4096 / 1024 == d;
    assert v / 4096 == 1024 * d + t;
    assert d * 0x40_0000 / 1024 == d * 4096;
  }

  /** Distinct pages have distinct entries. */
  lemma PtePtrInjective(v: nat, w: nat)
    ensures PtePtr(v) == PtePtr(w) <==> v / 4096 == w / 4096
  {
    PtePtrLinear(v);
    PtePtrLinear(w);
  }

  /** mem_pool_init: the frames of the kernel's bitmap lie below the user's, and
      those below the end of memory. */
  lemma PoolsDisjoint(allMem: nat)
    requires 0x20_0000 <= allMem < 0x1_0000_0000
    ensures var free := (allMem - 0x20_0000) / 4096;
            var kernel := free / 2;
            var user := free - kernel;
            var kStart, uStart := 0x20_0000, 0x20_0000 + kernel * 4096;
            && kStart + 4096 * (8 * (kernel / 8)) <= uStart
            && uStart + 4096 * (8 * (user / 8)) <= allMem
            && kStart % 4096 == 0 && kStart >= 0x10_2000
  {}

  /** The kernel's page allocator, over its bitmaps.  `upool` is the user's frame
      bitmap, whose frames begin at userStart. */
  class Pages {
    const vmap: B.Bitmap
    const kpool: B.Bitmap
    const upool: B.Bitmap
    const start: nat
    const userStart: nat
    var ptes: seq<Pte>

    ghost predicate Laid()
      reads this, vmap, kpool, upool
    {
      && vmap.Valid() && kpool.Valid() && upool.Valid()
      && vmap != kpool && vmap != upool && kpool != upool
      && vmap.bits != kpool.bits && vmap.bits != upool.bits && kpool.bits != upool.bits
      && start % 4096 == 0 && start >= 0x10_2000 && start + 4096 * (8 * kpool.len) <= userStart
      && HEAP_START + 4096 * (8 * vmap.len) <= 0x1_0000_0000
    }

    ghost function State(): Memory
      requires Laid()
      reads this, vmap, vmap.bits, kpool, kpool.bits, upool
    {
      Memory(vmap.View(), ptes, kpool.View(), start)
    }

    /** mem_pool_init, with no heap page mapped. */
    constructor (vbits: array<bv8>, kbits: array<bv8>, ubits: array<bv8>, start: nat, userStart: nat)
      requires vbits != kbits && vbits != ubits && kbits != ubits
      requires vbits.Length >= 1 && kbits.Length >= 1 && ubits.Length >= 1
      requires start % 4096 == 0 && start >= 0x10_2000 && start + 4096 * (8 * (kbits.Length - 1)) <= userStart
      requires HEAP_START + 4096 * (8 * (vbits.Length - 1)) <= 0x1_0000_0000
      modifies vbits, kbits, ubits
      ensures Laid() && Agree(State()) && fresh(vmap) && fresh(kpool) && fresh(upool)
      ensures vmap.bits == vbits && kpool.bits == kbits && upool.bits == ubits
      ensures forall f :: 0 <= f < |State().frames| ==> !State().frames[f]
    {
      vmap := new B.Bitmap(vbits);
      kpool := new B.Bitmap(kbits);
      upool := new B.Bitmap(ubits);
      this.start := start;
      this.userStart := userStart;
      ptes := seq(8 * (vbits.Length - 1), i => Pte(0, false));
      new;
      vmap.Init();
      kpool.Init();
      upool.Init();
    }

    /** vaddr_get: the pages are marked as taken one by one. */
    method VaddrGet(n: nat) returns (r: B.ScanResult)
      requires Laid() && n >= 1
      modifies vmap.bits
      ensures Laid() && vmap.Beyond() == old(vmap.Beyond())
      ensures B.AllSet(old(vmap.View())) ==> r == B.Panic
      ensures !B.AllSet(old(vmap.View())) ==> B.ScanOutcome(old(vmap.View()), old(vmap.Beyond()), n, r)
      ensures State() == match r
                         case Found(a) => old(State()).(vbits := Filled(old(vmap.View()), a, a + n, true))
                         case _ => old(State())
    {
      r := vmap.Scan(n);
      if r.Found? {
        ghost var v, b := vmap.View(), vmap.Beyond();
        var cnt := 0;
        while cnt < n
          invariant cnt <= n && Laid() && vmap.View() == Filled(v, r.start, r.start + cnt, true)
          invariant vmap.Beyond() == b && kpool.View() == old(kpool.View())
        {
          vmap.Set(r.start + cnt, true);
          cnt := cnt + 1;
        }
      }
    }

    /** vaddr_remove. */
    method VaddrRemove(a: nat, n: nat)
      requires Laid() && a + n <= 8 * vmap.len
      modifies vmap.bits
      ensures Laid() && State() == old(State()).(vbits := Filled(old(vmap.View()), a, a + n, false))
      ensures vmap.Beyond() == old(vmap.Beyond())
    {
      ghost var v, b := vmap.View(), vmap.Beyond();
      var cnt := 0;
      while cnt < n
        invariant cnt <= n && Laid() && vmap.View() == Filled(v, a, a + cnt, false) && vmap.Beyond() == b
        invariant kpool.View() == old(kpool.View())
      {
        vmap.Set(a + cnt, false);
        cnt := cnt + 1;
      }
    }

    /** palloc from the kernel's pool: the physical address of a frame. */
    method Palloc() returns (phys: nat)
      requires Laid() && B.CountFree(kpool.View()) > 0
      modifies kpool.bits
      ensures Laid() && !B.AllSet(old(kpool.View()))
      ensures phys == start + 4096 * B.FirstFree(old(kpool.View()))
      ensures State() == old(State()).(frames := old(kpool.View())[B.FirstFree(old(kpool.View())) := true])
    {
      B.FullIffNoneFree(kpool.View());
      var r := kpool.Scan(1);
      kpool.Set(r.start, true);
      phys := start + 4096 * r.start;
    }

    /** page_table_add, where the page directory is present: the ASSERT that the
        entry is absent is this method's precondition. */
    method PageTableAdd(p: nat, phys: nat)
      requires p < |ptes| && !ptes[p].present
      modifies `ptes
      ensures ptes == old(ptes)[p := Pte(phys, true)]
    {
      ptes := ptes[p := Pte(phys, true)];
    }

    /** palloc and page_table_add for page p. */
    method MapPage(p: nat)
      requires Laid() && p < |ptes| && !ptes[p].present && B.CountFree(kpool.View()) > 0
      modifies kpool.bits, `ptes
      ensures Laid() && State() == Map(old(State()), p)
    {
      var phys := Palloc();
      PageTableAdd(p, phys);
    }

    /** malloc_page for the kernel, with a frame for every page. */
    method MallocPage(n: nat) returns (r: B.ScanResult)
      requires Laid() && Agree(State()) && n >= 1 && B.CountFree(kpool.View()) >= n
      modifies vmap.bits, kpool.bits, `ptes
      ensures Laid() && Agree(State()) && vmap.Beyond() == old(vmap.Beyond())
      ensures B.AllSet(old(vmap.View())) ==> r == B.Panic
      ensures !B.AllSet(old(vmap.View())) ==> B.ScanOutcome(old(vmap.View()), old(vmap.Beyond()), n, r)
      ensures if r.Found? then Taken(old(State()), State(), r.start, n) else State() == old(State())
    {
      r := VaddrGet(n);
      if r.Found? {
        MapFound(r.start, n, old(State()));
      }
    }

    method MapFound(a: nat, n: nat, ghost m: Memory)
      requires Laid() && Agree(m) && B.FirstFit(m.vbits, n, a) && B.CountFree(m.frames) >= n
      requires State() == m.(vbits := Filled(m.vbits, a, a + n, true))
      modifies kpool.bits, `ptes
      ensures Laid() && Agree(State()) && Taken(m, State(), a, n)
    {
      var b := a + n;
      StartMapping(m, a, n, b);
      MapAll(a, b, m);
      AllMapped(m, State(), a, n, b);
    }

    method MapAll(a: nat, b: nat, ghost m: Memory)
      requires Laid() && Mapping(m, State(), a, b, a) && B.CountFree(m.frames) >= b - a
      modifies kpool.bits, `ptes
      ensures Laid() && Mapping(m, State(), a, b, b)
    {
      var p := a;
      while p < b
        invariant a <= p <= b && Laid() && Mapping(m, State(), a, b, p)
      {
        p := MapNext(m, a, b, p);
      }
    }

    method MapNext(ghost m: Memory, ghost a: nat, ghost b: nat, p: nat) returns (q: nat)
      requires Laid() && Mapping(m, State(), a, b, p) && p < b && B.CountFree(m.frames) >= b - a
      modifies kpool.bits, `ptes
      ensures q == p + 1 && Laid() && Mapping(m, State(), a, b, q)
    {
      q := p + 1;
      MappingStep(m, State(), a, b, p, q);
      MapPage(p);
    }

    /** addr_v2p at the start of page p: the frame number outlives the present
        bit. */
    function AddrV2P(p: nat): nat
      requires p < |ptes|
      reads this
    {
      ptes[p].phys
    }

    /** pfree: the pool is told by the address, and the other one is left alone. */
    method Pfree(phys: nat)
      requires Laid() && start <= phys
      requires if phys >= userStart then (phys - userStart) / 4096 < 8 * upool.len
               else (phys - start) / 4096 < 8 * kpool.len
      modifies if phys >= userStart then upool.bits else kpool.bits
      ensures Laid()
      ensures phys >= userStart ==>
                State() == old(State()) && upool.View() == old(upool.View())[(phys - userStart) / 4096 := false]
      ensures phys < userStart ==>
                State() == old(State()).(frames := old(kpool.View())[(phys - start) / 4096 := false])
    {
      if phys >= userStart {
        upool.Set((phys - userStart) / 4096, false);
      } else {
        kpool.Set((phys - start) / 4096, false);
      }
    }

    /** Free the page's frame and take its entry out.  The ASSERTs on the frame's
        address hold. */
    method UnmapPage(p: nat)
      requires Laid() && p < |ptes| && ptes[p].present && Backed(State(), p)
      modifies kpool.bits, `ptes
      ensures Laid() && State() == Unmap(old(State()), p)
    {
      var phys := AddrV2P(p);
      FrameAddress(start, phys, 8 * kpool.len);
      assert phys % 4096 == 0 && phys >= start && phys < userStart;
      Pfree(phys);
      ptes := ptes[p := ptes[p].(present := false)];
    }

    /** mfree_page for the kernel. */
    method MfreePage(a: nat, n: nat)
      requires Laid() && Agree(State()) && n >= 1 && a + n <= |ptes|
      requires forall q :: a <= q < a + n ==> ptes[q].present
      modifies vmap.bits, kpool.bits, `ptes
      ensures Laid() && Agree(State()) && GivenBack(old(State()), State(), a, n)
      ensures vmap.Beyond() == old(vmap.Beyond())
    {
      var b := a + n;
      UnmapAll(a, b);
      AllUnmapped(old(State()), State(), a, n, b);
      VaddrRemove(a, n);
    }

    method UnmapAll(a: nat, b: nat)
      requires Laid() && Agree(State()) && a <= b <= |ptes| && forall q :: a <= q < b ==> ptes[q].present
      modifies kpool.bits, `ptes
      ensures Laid() && Unmapping(old(State()), State(), a, b, b)
    {
      ghost var m := State();
      EmptyGap(m, a);
      var p := a;
      while p < b
        invariant a <= p <= b && Laid() && Unmapping(m, State(), a, b, p)
      {
        p := UnmapNext(m, a, b, p);
      }
    }

    method UnmapNext(ghost m: Memory, ghost a: nat, ghost b: nat, p: nat) returns (q: nat)
      requires Laid() && Unmapping(m, State(), a, b, p) && p < b && m.ptes[p].present
      modifies kpool.bits, `ptes
      ensures q == p + 1 && Laid() && Unmapping(m, State(), a, b, q)
    {
      q := p + 1;
      UnmappingStep(m, State(), a, b, p, q);
      UnmapPage(p);
    }
  }

  /** In malloc_page's loop, with the pages from a up to p of those up to b
      mapped. */
  ghost predicate Mapping(m: Memory, u: Memory, a: nat, b: nat, p: nat) {
    Partly(u, p, b) && Mapped(m, u, a, b, p)
  }

  ghost predicate Mapped(m: Memory, u: Memory, a: nat, b: nat, p: nat) {
    && u.start == m.start && |u.ptes| == |m.ptes| && |u.frames| == |m.frames|
    && |m.vbits| == |m.ptes| && a <= p <= b <= |m.ptes| && u.vbits == Filled(m.vbits, a, b, true)
    && (forall q :: 0 <= q < |m.ptes| && !(a <= q < p) ==> u.ptes[q] == m.ptes[q])
    && (forall q :: a <= q < p ==> u.ptes[q].present)
    && Cleared(u, a, p) == m.frames
    && B.CountFree(u.frames) + (p - a) == B.CountFree(m.frames)
  }

  /** In mfree_page's loop, with the pages from a up to p of those up to b
      unmapped. */
  ghost predicate Unmapping(m: Memory, u: Memory, a: nat, b: nat, p: nat) {
    Partly(u, a, p) && Unmapped(m, u, a, b, p)
  }

  ghost predicate Unmapped(m: Memory, u: Memory, a: nat, b: nat, p: nat) {
    && a <= p <= b <= |m.ptes| && u.start == m.start && |u.ptes| == |m.ptes| == |m.vbits| && u.vbits == m.vbits
    && u.frames == Cleared(m, a, p)
    && (forall q :: 0 <= q < |m.ptes| && !(a <= q < p) ==> u.ptes[q] == m.ptes[q])
    && (forall q :: a <= q < p ==> u.ptes[q] == m.ptes[q].(present := false))
  }

  lemma StartMapping(m: Memory, a: nat, n: nat, b: nat)
    requires Agree(m) && B.FreeRun(m.vbits, a, n) && b == a + n
    ensures Mapping(m, m.(vbits := Filled(m.vbits, a, b, true)), a, b, a)
  {
    TakeKeeps(m, a, b);
  }

  lemma AllMapped(m: Memory, u: Memory, a: nat, n: nat, b: nat)
    requires b == a + n && Mapping(m, u, a, b, b) && B.FirstFit(m.vbits, n, a)
    ensures Agree(u) && Taken(m, u, a, n)
  {
    EmptyGap(u, b);
  }

  lemma AllUnmapped(m: Memory, u: Memory, a: nat, n: nat, b: nat)
    requires b == a + n && Unmapping(m, u, a, b, b)
    ensures var w := u.(vbits := Filled(u.vbits, a, b, false)); Agree(w) && GivenBack(m, w, a, n)
  {
    DropKeeps(u, a, b);
    UnmappedBack(m, u, a, n, b);
  }

  lemma UnmappedBack(m: Memory, u: Memory, a: nat, n: nat, b: nat)
    requires b == a + n && Unmapped(m, u, a, b, b)
    ensures GivenBack(m, u.(vbits := Filled(u.vbits, a, b, false)), a, n)
  {}

  lemma MappedStep(m: Memory, u: Memory, w: Memory, a: nat, b: nat, p: nat, phys: nat)
    requires Mapped(m, u, a, b, p) && p < b
    requires w.start == u.start && w.vbits == u.vbits && |w.frames| == |u.frames|
    requires w.ptes == u.ptes[p := Pte(phys, true)]
    requires Cleared(w, a, p + 1) == Cleared(u, a, p)
    requires B.CountFree(w.frames) + 1 == B.CountFree(u.frames)
    ensures Mapped(m, w, a, b, p + 1)
  {}

  lemma MapChanges(u: Memory, p: nat)
    requires B.CountFree(u.frames) > 0 && p < |u.ptes|
    ensures var w := Map(u, p);
            && w.start == u.start && w.vbits == u.vbits && |w.frames| == |u.frames|
            && w.ptes == u.ptes[p := Pte(u.start + 4096 * B.FirstFree(u.frames), true)]
            && B.CountFree(w.frames) + 1 == B.CountFree(u.frames)
  {
    B.FullIffNoneFree(u.frames);
    B.CountFreeUpdate(u.frames, B.FirstFree(u.frames));
  }

  lemma MappingStep(m: Memory, u: Memory, a: nat, b: nat, p: nat, q: nat)
    requires Mapping(m, u, a, b, p) && p < b && B.CountFree(m.frames) >= b - a && q == p + 1
    ensures B.CountFree(u.frames) > 0 && Mapping(m, Map(u, p), a, b, q)
  {
    MapKeeps(u, p, b);
    MappedNext(m, u, a, b, p);
  }

  lemma MappedNext(m: Memory, u: Memory, a: nat, b: nat, p: nat)
    requires Partly(u, p, b) && Mapped(m, u, a, b, p) && p < b && B.CountFree(m.frames) >= b - a
    ensures B.CountFree(u.frames) > 0 && Mapped(m, Map(u, p), a, b, p + 1)
  {
    MapChanges(u, p);
    MapCleared(u, a, p, b);
    MappedStep(m, u, Map(u, p), a, b, p, u.start + 4096 * B.FirstFree(u.frames));
  }

  lemma UnmappingStep(m: Memory, u: Memory, a: nat, b: nat, p: nat, q: nat)
    requires Unmapping(m, u, a, b, p) && p < b && m.ptes[p].present && q == p + 1
    ensures Backed(u, p) && Unmapping(m, Unmap(u, p), a, b, q)
  {
    UnmapKeeps(u, a, p);
    assert Backed(u, p);
    UnmappedNext(m, u, a, b, p, q);
  }

  lemma UnmappedNext(m: Memory, u: Memory, a: nat, b: nat, p: nat, q: nat)
    requires p < b && Unmapped(m, u, a, b, p) && Backed(u, p) && m.ptes[p].present && q == p + 1
    ensures Unmapped(m, Unmap(u, p), a, b, q)
  {
    assert FrameOf(u, p) == FrameOf(m, p);
  }
}
