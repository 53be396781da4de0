/** sys_malloc and sys_free as the kernel runs them. */
module KernelHeap {
  import opened Sequences
  import opened KernelPages
  import opened HeapStates
  import B = Bitmaps

  /** `Stopped` is a failed ASSERT of the page bitmap's scan. */
  datatype Allocation = Stopped | Null | At(addr: nat)

  /** The smallest size class that fits. */
  function ClassOf(size: nat): (c: nat)
    requires 0 < size <= 1024
    ensures c < 7 && size <= Size(c) && forall d: nat :: d < c ==> size > Size(d)
  {
    if size <= 16 then 0 else if size <= 32 then 1 else if size <= 64 then 2 else if size <= 128 then 3
    else if size <= 256 then 4 else if size <= 512 then 5 else 6
  }

  /** Pages a request needs: so many hold the header and the bytes asked for, and
      one less does not; a small one needs a page if the list of the smallest class
      that fits is empty. */
  function PagesNeeded(h: HeapState, size: nat): (n: nat)
    requires |h.lists| == 7
    ensures size > 1024 ==> 4096 * n >= size + 12 > 4096 * (n - 1)
    ensures 0 < size <= 1024 ==> n <= 1 && (n == 1 <==> h.lists[ClassOf(size)] == [])
  {
    if size > 1024 then (size + 12 + 4095) / 4096
    else if size > 0 && h.lists[ClassOf(size)] == [] then 1
    else 0
  }

  /** block_desc_init. */
  method BlockDescInit() returns (sizes: seq<nat>, perArena: seq<nat>)
    ensures |sizes| == 7 && |perArena| == 7
    ensures sizes == [16, 32, 64, 128, 256, 512, 1024] && perArena == [255, 127, 63, 31, 15, 7, 3]
    ensures forall c :: 0 <= c < 7 ==> sizes[c] == Size(c) && perArena[c] == PerArena(c)
  {
    sizes, perArena := [], [];
    var size: nat := 16;
    for idx := 0 to 7
      invariant |sizes| == idx && |perArena| == idx && (idx < 7 ==> size == Size(idx))
      invariant forall c :: 0 <= c < idx ==> sizes[c] == Size(c) && perArena[c] == PerArena(c)
    {
      sizes := sizes + [size];
      perArena := perArena + [(4096 - 12) / size];
      size := size * 2;
    }
  }

  /** When a request that needs n new pages may fail: NULL if the page bitmap has
      no run of them, not even with the bit after it, and a stop if it is full or
      has no run but with that bit. */
  ghost predicate Answered(n: nat, vbits: seq<bool>, beyond: bool, r: Allocation) {
    && (n == 0 ==> r.At?)
    && (r == Null ==> n > 0 && forall t :: !B.FreeRun(vbits + [beyond], t, n))
    && (r == Stopped ==> n > 0 && (B.AllSet(vbits) || B.ScanOutcome(vbits, beyond, n, B.Panic)))
  }

  /** What sys_malloc has made of the heap: more than 1024 bytes have the first
      fitting pages, and begin after the header; fewer have the front block of the
      list of the smallest class that fits, or if that is empty the first block of
      an arena in the first free page, whose other blocks are the list then.  `p` is
      the number of the first page taken, if one is. */
  ghost predicate Granted(h: HeapState, u: HeapState, vbits: seq<bool>, size: nat, x: nat, p: nat)
    requires |h.lists| == 7 && size > 0
  {
    && u.live == h.live[x := size]
    && if size > 1024 then GrantedPages(h, u, vbits, PagesNeeded(h, size), x, p)
       else if h.lists[ClassOf(size)] != [] then GrantedListed(h, u, ClassOf(size), x)
       else GrantedNew(h, u, vbits, ClassOf(size), x, p)
  }

  ghost predicate GrantedPages(h: HeapState, u: HeapState, vbits: seq<bool>, n: nat, x: nat, p: nat) {
    && B.FirstFit(vbits, n, p) && x == HEAP_START + 4096 * p + 12
    && u.arenas == h.arenas[HEAP_START + 4096 * p := Arena(NoDesc, n, true)] && u.lists == h.lists
  }

  ghost predicate GrantedListed(h: HeapState, u: HeapState, c: nat, x: nat)
    requires c < |h.lists| && h.lists[c] != []
  {
    && x == h.lists[c][0] && u.lists == h.lists[c := h.lists[c][1..]]
    && ArenaOf(x) in h.arenas && h.arenas[ArenaOf(x)].cnt > 0
    && u.arenas == h.arenas[ArenaOf(x) := h.arenas[ArenaOf(x)].(cnt := h.arenas[ArenaOf(x)].cnt - 1)]
  }

  /** An arena's blocks after the first. */
  function AllButFirst(a: nat, c: nat): (s: seq<nat>)
    requires c < 7
    ensures |s| == PerArena(c) - 1 && forall i :: 0 <= i < |s| ==> s[i] == a + 12 + (i + 1) * Size(c)
  {
    seq(PerArena(c) - 1, i requires 0 <= i < PerArena(c) - 1 => a + 12 + (i + 1) * Size(c))
  }

  ghost predicate GrantedNew(h: HeapState, u: HeapState, vbits: seq<bool>, c: nat, x: nat, p: nat)
    requires c < 7 && c < |h.lists|
  {
    var a := HEAP_START + 4096 * p;
    && B.FirstFit(vbits, 1, p) && x == a + 12
    && u.arenas == h.arenas[a := Arena(Class(c), PerArena(c) - 1, false)]
    && u.lists == h.lists[c := AllButFirst(a, c)]
  }

  ghost predicate PagesGranted(m: Memory, u: Memory, p: nat, n: nat) {
    if n == 0 then u == m else Taken(m, u, p, n)
  }

  /** What sys_free makes of it: a large allocation's arena goes; a block goes to
      the end of the list of its class, unless its arena is all free with it: then
      the arena goes, and its blocks leave the list. */
  ghost predicate Freed(h: HeapState, u: HeapState, x: nat)
    requires ArenaOf(x) in h.arenas && |h.lists| == 7
  {
    var a, r := ArenaOf(x), h.arenas[ArenaOf(x)];
    && u.live == h.live - {x}
    && match r.desc
       case NoDesc => u.arenas == h.arenas - {a} && u.lists == h.lists
       case Class(c) =>
         && c < 7
         && if r.cnt + 1 < PerArena(c) then
              u.arenas == h.arenas[a := r.(cnt := r.cnt + 1)] && u.lists == h.lists[c := h.lists[c] + [x]]
            else u.arenas == h.arenas - {a} && u.lists == h.lists[c := Elsewhere(h.lists[c], a)]
  }

  /** The list that a new arena leaves once its first block is handed out. */
  lemma NewGranted(h: HeapState, vbits: seq<bool>, c: nat, size: nat, p: nat)
    requires c < 7 && |h.lists| == 7 && h.lists[c] == [] && B.FirstFit(vbits, 1, p)
    ensures var a := HEAP_START + 4096 * p;
            var g := Grown(h, a, c);
            && g.lists[c] != [] && g.lists[c][0] == a + 12 && ArenaOf(a + 12) == a && a in g.arenas && g.arenas[a].cnt > 0
            && GrantedNew(h, Popped(g, c, size), vbits, c, a + 12, p)
  {
    var a := HEAP_START + 4096 * p;
    WithBlocksIs([], a, c, PerArena(c));
    OffsetBack(a, 12);
    var g := Grown(h, a, c);
    assert g.lists[c][0] == a + 12 + 0 * Size(c);
    assert g.lists[c][1..] == AllButFirst(a, c);
  }

  /** To free what was just handed out gives the arenas back as they were, and the
      lists but for the place of the block, which is now the last of its list; of
      pages just taken nothing is left. */
  lemma FreeUndoesGrant(h: HeapState, u: HeapState, w: HeapState, vbits: seq<bool>, size: nat, x: nat, p: nat)
    requires Inv(h) && size > 0 && Granted(h, u, vbits, size, x, p) && x !in h.live
    requires ArenaOf(x) in u.arenas && |u.lists| == 7 && Freed(u, w, x)
    requires HEAP_START + 4096 * p !in h.arenas
    ensures w.live == h.live && w.arenas == h.arenas
    ensures if size <= 1024 && h.lists[ClassOf(size)] != [] then
              w.lists == h.lists[ClassOf(size) := h.lists[ClassOf(size)][1..] + [x]]
            else w.lists == h.lists
  {
    if size > 1024 {
      PagesUndone(h, u, w, vbits, PagesNeeded(h, size), size, x, p);
    } else if h.lists[ClassOf(size)] != [] {
      ListedArena(h, ClassOf(size));
      ListedUndone(h, u, w, ClassOf(size), size, x, h.arenas[ArenaOf(x)]);
    } else {
      NewUndone(h, u, w, vbits, ClassOf(size), size, x, p);
    }
  }

  lemma PagesUndone(h: HeapState, u: HeapState, w: HeapState, vbits: seq<bool>, n: nat, size: nat, x: nat, p: nat)
    requires |h.lists| == |u.lists| == 7 && GrantedPages(h, u, vbits, n, x, p)
    requires u.live == h.live[x := size] && x !in h.live
    requires ArenaOf(x) in u.arenas && Freed(u, w, x) && HEAP_START + 4096 * p !in h.arenas
    ensures w == h
  {
    OffsetBack(HEAP_START + 4096 * p, 12);
  }

  lemma ListedUndone(h: HeapState, u: HeapState, w: HeapState, c: nat, size: nat, x: nat, r: Arena)
    requires c < 7 && |h.lists| == |u.lists| == 7 && h.lists[c] != [] && GrantedListed(h, u, c, x)
    requires u.live == h.live[x := size] && x !in h.live && ArenaOf(x) in u.arenas && Freed(u, w, x)
    requires r == h.arenas[ArenaOf(x)] && r.desc == Class(c) && 0 < r.cnt < PerArena(c)
    ensures w == h.(lists := h.lists[c := h.lists[c][1..] + [x]])
  {}

  lemma ListedArena(h: HeapState, c: nat)
    requires Inv(h) && c < 7 && h.lists[c] != []
    ensures var a := ArenaOf(h.lists[c][0]);
            a in h.arenas && h.arenas[a].desc == Class(c) && 0 < h.arenas[a].cnt < PerArena(c)
  {
    PopCount(h, c);
    assert !IsFull(h, ArenaOf(h.lists[c][0]));
  }

  lemma NewUndone(h: HeapState, u: HeapState, w: HeapState, vbits: seq<bool>, c: nat, size: nat, x: nat, p: nat)
    requires c < 7 && |h.lists| == |u.lists| == 7 && h.lists[c] == []
    requires GrantedNew(h, u, vbits, c, x, p) && u.live == h.live[x := size] && x !in h.live
    requires ArenaOf(x) in u.arenas && Freed(u, w, x) && HEAP_START + 4096 * p !in h.arenas
    ensures w == h
  {
    OffsetBack(HEAP_START + 4096 * p, 12);
    NewLeavesNothing(HEAP_START + 4096 * p, c);
  }

  lemma NewLeavesNothing(a: nat, c: nat)
    requires c < 7 && a % 4096 == 0
    ensures Elsewhere(AllButFirst(a, c), a) == []
  {
    var list := AllButFirst(a, c);
    forall i | 0 <= i < |list|
      ensures ArenaOf(list[i]) == a
    {
      BlockAddress(a, c, i + 1);
      BlockBack(a, c, i + 1);
    }
    ElsewhereNothing(list, a);
  }

  /** A block put back, with others of its arena still live, */
  lemma FreedByPush(h: HeapState, c: nat, x: nat)
    requires c < 7 && |h.lists| == 7 && ArenaOf(x) in h.arenas && h.arenas[ArenaOf(x)].desc == Class(c)
    requires h.arenas[ArenaOf(x)].cnt + 1 < PerArena(c)
    ensures Freed(h, Pushed(h, c, x), x)
  {}

  /** and the last one of them. */
  lemma FreedByRelease(h: HeapState, w: HeapState, c: nat, x: nat, a: nat)
    requires c < 7 && |h.lists| == 7 && a == ArenaOf(x) && a in h.arenas && h.arenas[a].desc == Class(c)
    requires h.arenas[a].cnt + 1 == PerArena(c)
    requires var q := Pushed(h, c, x);
             w.arenas == q.arenas - {a} && w.live == q.live && w.lists == q.lists[c := Elsewhere(q.lists[c], a)]
    ensures Freed(h, w, x)
  {
    ElsewhereLast(h.lists[c], x);
    assert Pushed(h, c, x).arenas - {a} == h.arenas - {a};
  }

  class Heap {
    const pages: Pages
    /** The size of the kernel's pool in bytes. */
    const poolSize: nat
    var arenas: map<nat, Arena>
    var lists: seq<seq<nat>>
    ghost var live: map<nat, nat>

    /** mem_init leaves the heap empty and in order. */
    constructor (pages: Pages, poolSize: nat)
      requires pages.Laid() && Agree(pages.State())
      ensures this.pages == pages && this.poolSize == poolSize
      ensures State() == HeapState(map[], seq(7, c => []), map[]) && Ready()
    {
      this.pages := pages;
      this.poolSize := poolSize;
      arenas := map[];
      lists := seq(7, c => []);
      live := map[];
    }

    ghost function State(): HeapState
      reads this
    {
      HeapState(arenas, lists, live)
    }

    ghost predicate Paged()
      reads this, pages, pages.vmap, pages.vmap.bits, pages.kpool, pages.kpool.bits, pages.upool
    {
      pages.Laid() && Agree(pages.State()) && PagesTaken(State(), pages.State().vbits)
    }

    ghost predicate Ready()
      reads this, pages, pages.vmap, pages.vmap.bits, pages.kpool, pages.kpool.bits, pages.upool
    {
      Paged() && Inv(State())
    }

    /** The search of sys_malloc for a size class. */
    method FindClass(size: nat) returns (c: nat)
      requires 0 < size <= 1024
      ensures c == ClassOf(size)
    {
      c := 0;
      while c < 7
        invariant c < 7 && forall d: nat :: d < c ==> size > Size(d)
        decreases 7 - c
      {
        if size <= Size(c) {
          break;
        }
        assert c != 6;
        c := c + 1;
      }
      assert c < 7 ==> size <= Size(c);
    }

    /** A new arena's blocks go to the free list one by one; none is there yet. */
    method AppendBlocks(a: nat, c: nat)
      requires c < 7 && |lists| == 7 && a % 4096 == 0
      requires NoDup(lists[c]) && forall x :: x in lists[c] ==> ArenaOf(x) != a
      modifies `lists
      ensures lists == old(lists)[c := WithBlocks(old(lists)[c], a, c, PerArena(c))]
    {
      ghost var list := lists[c];
      var idx := 0;
      while idx < PerArena(c)
        invariant idx <= PerArena(c) && |lists| == 7
        invariant lists == old(lists)[c := WithBlocks(list, a, c, idx)]
      {
        WithBlocksMembers(list, a, c, idx);
        assert Block(a, c, idx) !in lists[c];
        lists := lists[c := lists[c] + [Block(a, c, idx)]];
        idx := idx + 1;
      }
    }

    /** The blocks of an arena given back leave the free list one by one; each is
        there. */
    method RemoveBlocks(a: nat, c: nat)
      requires c < 7 && |lists| == 7 && a % 4096 == 0 && NoDup(lists[c]) && BlocksListed(lists[c], a, c)
      modifies `lists
      ensures lists == old(lists)[c := WithoutBlocks(old(lists)[c], a, c, PerArena(c))]
    {
      ghost var before := lists;
      var idx := 0;
      while idx < PerArena(c)
        invariant idx <= PerArena(c) && |lists| == 7
        invariant lists == before[c := WithoutBlocks(before[c], a, c, idx)]
      {
        RemoveOne(a, c, idx, idx + 1, before);
        idx := idx + 1;
      }
    }

    /** elem_find in the ASSERT, then list_remove. */
    method RemoveOne(a: nat, c: nat, idx: nat, ghost next: nat, ghost before: seq<seq<nat>>)
      requires c < 7 && |before| == 7 && a % 4096 == 0 && NoDup(before[c]) && BlocksListed(before[c], a, c)
      requires idx < PerArena(c) && next == idx + 1 && lists == before[c := WithoutBlocks(before[c], a, c, idx)]
      modifies `lists
      ensures lists == before[c := WithoutBlocks(before[c], a, c, next)]
    {
      RemoveStep(before[c], a, c, idx);
      assert Block(a, c, idx) in lists[c];
      lists := lists[c := Without(lists[c], Block(a, c, idx))];
    }

    /** The front block of a free list. */
    method TakeBlock(c: nat, size: nat) returns (x: nat)
      requires Ordered(State()) && c < 7 && lists[c] != [] && 0 < size <= Size(c)
      modifies `arenas, `lists, `live
      ensures x == old(lists)[c][0] && ArenaOf(x) in old(arenas) && old(arenas)[ArenaOf(x)].cnt > 0
      ensures State() == Popped(old(State()), c, size)
    {
      PopCount(State(), c);
      x := lists[c][0];
      lists := lists[c := lists[c][1..]];
      var a := ArenaOf(x);
      arenas := arenas[a := arenas[a].(cnt := arenas[a].cnt - 1)];
      live := live[x := size];
    }

    /** A request met from a free list that has a block. */
    method MallocListed(c: nat, size: nat) returns (x: nat)
      requires Ready() && c < 7 && lists[c] != [] && 0 < size <= Size(c)
      modifies `arenas, `lists, `live
      ensures Ready() && x !in old(live) && live == old(live)[x := size]
      ensures GrantedListed(old(State()), State(), c, x)
    {
      ghost var h := State();
      x := TakeBlock(c, size);
      PopKeeps(h, c, size);
      PopPages(h, c, size, pages.State().vbits);
    }

    /** One that needs a new arena. */
    method MallocInNew(c: nat, size: nat, p: nat, ghost h: HeapState, ghost vbits: seq<bool>) returns (x: nat)
      requires State() == h && Inv(h) && PagesTaken(h, vbits) && c < 7 && lists[c] == [] && 0 < size <= Size(c)
      requires p < |vbits| && !vbits[p] && pages.Laid() && Agree(pages.State())
      requires pages.State().vbits == Filled(vbits, p, p + 1, true) && B.FirstFit(vbits, 1, p)
      modifies `arenas, `lists, `live
      ensures Ready() && x !in old(live) && live == old(live)[x := size]
      ensures GrantedNew(h, State(), vbits, c, x, p)
    {
      SmallMade(h, vbits, pages.State().vbits, p, c, size);
      NewGranted(h, vbits, c, size, p);
      NewArena(HEAP_START + 4096 * p, c);
      x := TakeFirst(c, size);
    }

    /** The first block of a new arena. */
    method TakeFirst(c: nat, size: nat) returns (x: nat)
      requires Ordered(State()) && c < 7 && lists[c] != [] && 0 < size <= Size(c)
      requires ArenaOf(lists[c][0]) in arenas && arenas[ArenaOf(lists[c][0])].cnt > 0
      requires pages.Laid() && Agree(pages.State()) && Inv(Popped(State(), c, size))
      requires PagesTaken(Popped(State(), c, size), pages.State().vbits)
      modifies `arenas, `lists, `live
      ensures Ready() && x == old(lists)[c][0] && live == old(live)[x := size]
      ensures State() == Popped(old(State()), c, size)
    {
      x := TakeBlock(c, size);
    }

    method NewArena(a: nat, c: nat)
      requires Ordered(State()) && c < 7 && a % 4096 == 0 && NewPages(State(), a, 1)
      modifies `arenas, `lists
      ensures State() == Grown(old(State()), a, c)
    {
      NewIsNew(State(), a, 1);
      arenas := arenas[a := Arena(Class(c), PerArena(c), false)];
      AppendBlocks(a, c);
    }

    /** More than 1024 bytes: whole pages, with the header in front. */
    method MallocInPages(n: nat, size: nat, p: nat, ghost h: HeapState, ghost vbits: seq<bool>) returns (x: nat)
      requires State() == h && Inv(h) && PagesTaken(h, vbits) && n >= 1 && 0 < size && size + 12 <= 4096 * n
      requires p + n <= |vbits| && (forall q :: p <= q < p + n ==> !vbits[q])
      requires pages.Laid() && Agree(pages.State()) && pages.State().vbits == Filled(vbits, p, p + n, true)
      requires B.FirstFit(vbits, n, p)
      modifies `arenas, `live
      ensures Ready() && x !in old(live) && live == old(live)[x := size]
      ensures GrantedPages(h, State(), vbits, n, x, p)
    {
      LargeMade(h, vbits, pages.State().vbits, p, n, size);
      x := EnterLarge(HEAP_START + 4096 * p, n, size);
    }

    method EnterLarge(a: nat, n: nat, ghost size: nat) returns (x: nat)
      requires pages.Laid() && Agree(pages.State()) && Inv(WithLarge(State(), a, n, size))
      requires PagesTaken(WithLarge(State(), a, n, size), pages.State().vbits)
      modifies `arenas, `live
      ensures Ready() && x == a + 12 && live == old(live)[x := size]
      ensures arenas == old(arenas)[a := Arena(NoDesc, n, true)]
    {
      arenas := arenas[a := Arena(NoDesc, n, true)];
      x := a + 12;
      live := live[x := size];
      assert State() == WithLarge(old(State()), a, n, size);
    }

    /** sys_malloc for the kernel, with frames for the pages it needs.  The block
        was not live and is as large as asked; a request that fails leaves the
        heap as it was, and fails for the sizes refused or because the page
        bitmap has no run. */
    method SysMalloc(size: nat) returns (r: Allocation)
      requires Ready()
      requires 0 < size < poolSize ==> B.CountFree(pages.kpool.View()) >= PagesNeeded(State(), size)
      modifies this, pages`ptes, pages.vmap.bits, pages.kpool.bits
      ensures Ready()
      ensures r.At? ==> 0 < size < poolSize && r.addr !in old(live) && live == old(live)[r.addr := size]
      ensures r.At? ==>
                exists p ::
                  && Granted(old(State()), State(), old(pages.vmap.View()), size, r.addr, p)
                  && PagesGranted(old(pages.State()), pages.State(), p, PagesNeeded(old(State()), size))
      ensures !r.At? ==> State() == old(State()) && pages.State() == old(pages.State())
      ensures !(0 < size < poolSize) ==> r == Null
      ensures 0 < size < poolSize ==>
                Answered(PagesNeeded(old(State()), size), old(pages.vmap.View()), old(pages.vmap.Beyond()), r)
    {
      if !(size > 0 && size < poolSize) {
        return Null;
      }
      ghost var p := 0;
      ghost var h, m, vbits := State(), pages.State(), pages.vmap.View();
      if size > 1024 {
        r, p := MallocLarge(size, (size + 12 + 4095) / 4096);
      } else {
        var c := FindClass(size);
        if lists[c] == [] {
          r, p := MallocSmall(c, size);
        } else {
          var x := MallocListed(c, size);
          r := At(x);
        }
      }
      assert r.At? ==>
               Granted(h, State(), vbits, size, r.addr, p) && PagesGranted(m, pages.State(), p, PagesNeeded(h, size));
    }

    method MallocLarge(size: nat, n: nat) returns (r: Allocation, ghost p: nat)
      requires Ready() && n >= 1 && 0 < size && size + 12 <= 4096 * n && B.CountFree(pages.kpool.View()) >= n
      modifies `arenas, `live, pages`ptes, pages.vmap.bits, pages.kpool.bits
      ensures Ready() && Answered(n, old(pages.vmap.View()), old(pages.vmap.Beyond()), r)
      ensures r.At? ==> r.addr !in old(live) && live == old(live)[r.addr := size]
      ensures r.At? ==> GrantedPages(old(State()), State(), old(pages.vmap.View()), n, r.addr, p)
      ensures r.At? ==> PagesGranted(old(pages.State()), pages.State(), p, n)
      ensures !r.At? ==> State() == old(State()) && pages.State() == old(pages.State())
    {
      ghost var h, vbits := State(), pages.State().vbits;
      p := 0;
      var s := pages.MallocPage(n);
      match s
      case Found(first) =>
        p := first;
        var x := MallocInPages(n, size, first, h, vbits);
        r := At(x);
      case NotFound => r := Null;
      case Panic => r := Stopped;
    }

    method MallocSmall(c: nat, size: nat) returns (r: Allocation, ghost p: nat)
      requires Ready() && c < 7 && lists[c] == [] && 0 < size <= Size(c) && B.CountFree(pages.kpool.View()) >= 1
      modifies `arenas, `lists, `live, pages`ptes, pages.vmap.bits, pages.kpool.bits
      ensures Ready() && Answered(1, old(pages.vmap.View()), old(pages.vmap.Beyond()), r)
      ensures r.At? ==> r.addr !in old(live) && live == old(live)[r.addr := size]
      ensures r.At? ==> GrantedNew(old(State()), State(), old(pages.vmap.View()), c, r.addr, p)
      ensures r.At? ==> PagesGranted(old(pages.State()), pages.State(), p, 1)
      ensures !r.At? ==> State() == old(State()) && pages.State() == old(pages.State())
    {
      ghost var h, vbits := State(), pages.State().vbits;
      p := 0;
      var s := pages.MallocPage(1);
      match s
      case Found(first) =>
        p := first;
        var x := MallocInNew(c, size, first, h, vbits);
        r := At(x);
      case NotFound => r := Null;
      case Panic => r := Stopped;
    }

    // ---------- sys_free ----------

    /** A large allocation's pages go back. */
    method FreeLarge(a: nat, ghost x: nat)
      requires Ready() && a in arenas && arenas[a].desc == NoDesc && x == a + 12
      modifies this, pages`ptes, pages.vmap.bits, pages.kpool.bits
      ensures Ready() && live == old(live) - {x} && arenas == old(arenas) - {a} && lists == old(lists)
      ensures GivenBack(old(pages.State()), pages.State(), PageNo(a), old(arenas)[a].cnt)
    {
      var n := arenas[a].cnt;
      LargeFreed(State(), pages.State(), a, PageNo(a), n);
      DropLarge(a, x);
      ReturnPages(a, n);
    }

    /** mfree_page of an arena that is out of the books. */
    method ReturnPages(a: nat, n: nat)
      requires pages.Laid() && Agree(pages.State()) && Returnable(State(), pages.State(), PageNo(a), n)
      modifies pages`ptes, pages.vmap.bits, pages.kpool.bits
      ensures Ready() && GivenBack(old(pages.State()), pages.State(), PageNo(a), n)
    {
      pages.MfreePage((a - HEAP_START) / 4096, n);
    }

    method DropLarge(a: nat, ghost x: nat)
      requires x == a + 12
      modifies `arenas, `live
      ensures State() == WithoutLarge(old(State()), a)
      ensures live == old(live) - {x} && arenas == old(arenas) - {a}
    {
      arenas := arenas - {a};
      live := live - {x};
    }

    /** The block goes to the end of its free list. */
    method PutBlock(c: nat, x: nat)
      requires Ordered(State()) && SmallLive(State(), c, x)
      modifies `arenas, `lists, `live
      ensures State() == Pushed(old(State()), c, x)
    {
      var a := ArenaOf(x);
      lists := lists[c := lists[c] + [x]];
      arenas := arenas[a := arenas[a].(cnt := arenas[a].cnt + 1)];
      live := live - {x};
    }

    /** An arena whose blocks are all free: they leave the list and the page goes
        back. */
    method GiveArenaBack(a: nat, c: nat)
      requires Paged() && Ordered(State()) && AllFree(State(), a, c)
      requires forall b :: b in arenas && b != a ==> !IsFull(State(), b)
      modifies this, pages`ptes, pages.vmap.bits, pages.kpool.bits
      ensures Ready() && live == old(live) && arenas == old(arenas) - {a}
      ensures lists == old(lists)[c := Elsewhere(old(lists)[c], a)]
      ensures GivenBack(old(pages.State()), pages.State(), PageNo(a), 1)
    {
      ArenaFreed(State(), pages.State(), a, c, PageNo(a));
      AllFreeOnList(State(), a, c);
      WithoutBlocksIs(State(), a, c);
      DropArena(a, c);
      ReturnPages(a, 1);
    }

    method DropArena(a: nat, c: nat)
      requires Ordered(State()) && AllFree(State(), a, c)
      modifies `arenas, `lists
      ensures State() == Released(old(State()), a, c)
    {
      AllFreeOnList(State(), a, c);
      RemoveBlocks(a, c);
      arenas := arenas - {a};
    }

    /** sys_free of an address sys_malloc handed out and that has not been freed
        since. */
    method SysFree(x: nat)
      requires Ready() && x in live
      modifies this, pages`ptes, pages.vmap.bits, pages.kpool.bits
      ensures Ready() && live == old(live) - {x}
      ensures ArenaOf(x) in old(arenas) && Freed(old(State()), State(), x)
      ensures if ArenaOf(x) in arenas then pages.State() == old(pages.State())
              else GivenBack(old(pages.State()), pages.State(), PageNo(ArenaOf(x)), PagesOf(old(arenas)[ArenaOf(x)]))
    {
      LiveKind(State(), x);
      var a := ArenaOf(x);
      if arenas[a].desc == NoDesc && arenas[a].large {
        FreeLarge(a, x);
      } else {
        FreeSmall(arenas[a].desc.c, x);
      }
    }

    method FreeSmall(c: nat, x: nat)
      requires Ready() && SmallLive(State(), c, x)
      modifies this, pages`ptes, pages.vmap.bits, pages.kpool.bits
      ensures Ready() && live == old(live) - {x} && Freed(old(State()), State(), x)
      ensures if ArenaOf(x) in arenas then pages.State() == old(pages.State())
              else GivenBack(old(pages.State()), pages.State(), PageNo(ArenaOf(x)), 1)
    {
      ghost var h, a := State(), ArenaOf(x);
      PushKeeps(h, c, x);
      PutBlock(c, x);
      PushPages(h, c, x, pages.State().vbits);
      if arenas[ArenaOf(x)].cnt == PerArena(c) {
        GiveArenaBack(ArenaOf(x), c);
        FreedByRelease(h, State(), c, x, a);
      } else {
        PushCount(h, c, x);
        FreedByPush(h, c, x);
      }
    }
  }
}
