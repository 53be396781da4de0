/** The kernel heap as a value: arenas of equal blocks after a header of 12 bytes,
    a free list for each of the seven sizes, and what is live. */
module HeapStates {
  import opened Sequences
  import opened KernelPages

  function Size(c: nat): (s: nat)
    requires c < 7
    ensures 16 <= s <= 1024
  {
    if c == 0 then 16 else if c == 1 then 32 else if c == 2 then 64 else if c == 3 then 128
    else if c == 4 then 256 else if c == 5 then 512 else 1024
  }

  function PerArena(c: nat): (n: nat)
    requires c < 7
    ensures 3 <= n <= 255
  {
    (4096 - 12) / Size(c)
  }

  /** arena2block, which computes the address by a multiplication. */
  function Block(a: nat, c: nat, i: nat): nat
    requires c < 7
  {
    if i == 0 then a + 12 else Block(a, c, i - 1) + Size(c)
  }

  lemma {:induction false} BlockAddress(a: nat, c: nat, i: nat)
    requires c < 7
    ensures Block(a, c, i) == a + 12 + i * Size(c)
  {
    if i > 0 { BlockAddress(a, c, i - 1); }
  }

  /** block2arena. */
  function ArenaOf(x: nat): nat { x - x % 4096 }

  /** How many whole blocks come before an offset. */
  function Steps(n: int, c: nat): nat
    requires c < 7
    decreases n
  {
    if n < Size(c) then 0 else 1 + Steps(n - Size(c), c)
  }

  function IndexOf(x: nat, c: nat): nat
    requires c < 7
  {
    Steps(x % 4096 - 12, c)
  }

  lemma {:induction false} BlockSteps(a: nat, c: nat, i: nat)
    requires c < 7
    ensures Block(a, c, i) >= a + 12 && Steps(Block(a, c, i) - a - 12, c) == i
  {
    if i > 0 { BlockSteps(a, c, i - 1); }
  }

  lemma BlockFits(c: nat, i: nat)
    requires c < 7 && i < PerArena(c)
    ensures 12 + i * Size(c) + Size(c) <= 4096
  {
    if c == 0 {} else if c == 1 {} else if c == 2 {} else if c == 3 {} else if c == 4 {} else if c == 5 {} else {}
  }

  lemma OffsetBack(a: nat, off: nat)
    requires a % 4096 == 0 && off < 4096
    ensures (a + off) % 4096 == off && ArenaOf(a + off) == a
  {}

  /** A block lies inside its arena's page, after the header, and tells its arena
      and its index. */
  lemma BlockBack(a: nat, c: nat, i: nat)
    requires c < 7 && i < PerArena(c) && a % 4096 == 0
    ensures ArenaOf(Block(a, c, i)) == a && IndexOf(Block(a, c, i), c) == i
    ensures a + 12 <= Block(a, c, i) && Block(a, c, i) + Size(c) <= a + 4096
  {
    BlockAddress(a, c, i);
    BlockFits(c, i);
    BlockSteps(a, c, i);
    OffsetBack(a, 12 + i * Size(c));
  }

  /** Two blocks of an arena do not overlap. */
  lemma {:induction false} BlocksApart(a: nat, c: nat, i: nat, j: nat)
    requires c < 7 && i < j
    ensures Block(a, c, i) + Size(c) <= Block(a, c, j)
    decreases j
  {
    if i + 1 < j { BlocksApart(a, c, i, j - 1); }
  }

  // ---------- The state ----------

  datatype Desc = NoDesc | Class(c: nat)

  /** A small arena counts its free blocks, a large one its pages. */
  datatype Arena = Arena(desc: Desc, cnt: nat, large: bool)

  /** `live` maps every address handed out to the size asked for. */
  datatype HeapState = HeapState(arenas: map<nat, Arena>, lists: seq<seq<nat>>, live: map<nat, nat>)

  /** The indices of an arena's blocks that are on a list. */
  function FreeSet(list: seq<nat>, a: nat, c: nat): set<nat>
    requires c < 7
  {
    set i: nat | i < PerArena(c) && Block(a, c, i) in list
  }

  function PagesOf(r: Arena): nat { if r.desc.Class? then 1 else r.cnt }

  /** Every block on a free list is a block of an arena of that size, and not
      live. */
  ghost predicate OnListOk(h: HeapState, c: nat, x: nat)
    requires c < 7
  {
    var a := ArenaOf(x);
    && a in h.arenas && h.arenas[a].desc == Class(c)
    && IndexOf(x, c) < PerArena(c) && x == Block(a, c, IndexOf(x, c))
    && x !in h.live
  }

  /** A small arena's count is the number of its blocks on the free list, the
      others are live; a large one has its only block live. */
  ghost predicate ArenaOk(h: HeapState, a: nat)
    requires a in h.arenas && |h.lists| == 7
  {
    var r := h.arenas[a];
    && a % 4096 == 0 && a >= HEAP_START
    && match r.desc
       case Class(c) =>
         && c < 7 && !r.large && r.cnt == |FreeSet(h.lists[c], a, c)|
         && forall i: nat :: i < PerArena(c) ==> Block(a, c, i) in h.lists[c] || Block(a, c, i) in h.live
       case NoDesc => r.large && r.cnt >= 1 && a + 12 in h.live
  }

  ghost predicate LiveOk(h: HeapState, x: nat)
    requires x in h.live
  {
    var a := ArenaOf(x);
    && a in h.arenas && h.live[x] > 0
    && match h.arenas[a].desc
       case Class(c) =>
         && c < 7 && IndexOf(x, c) < PerArena(c) && x == Block(a, c, IndexOf(x, c)) && h.live[x] <= Size(c)
       case NoDesc => x == a + 12 && h.live[x] + 12 <= 4096 * h.arenas[a].cnt
  }

  predicate Apart(a: nat, n: nat, b: nat, m: nat) {
    a + 4096 * n <= b || b + 4096 * m <= a
  }

  ghost predicate ListsOk(h: HeapState) {
    && |h.lists| == 7
    && (forall c :: 0 <= c < 7 ==> NoDup(h.lists[c]))
    && (forall c: nat, x :: c < 7 && x in h.lists[c] ==> OnListOk(h, c, x))
  }

  ghost predicate ArenasOk(h: HeapState) {
    |h.lists| == 7 && forall a :: a in h.arenas ==> ArenaOk(h, a)
  }

  ghost predicate LivesOk(h: HeapState) {
    forall x :: x in h.live ==> LiveOk(h, x)
  }

  ghost predicate SpansOk(h: HeapState) {
    forall a, b :: a in h.arenas && b in h.arenas && a != b ==>
      Apart(a, PagesOf(h.arenas[a]), b, PagesOf(h.arenas[b]))
  }

  /** The heap's order. */
  ghost predicate Ordered(h: HeapState) {
    ListsOk(h) && ArenasOk(h) && LivesOk(h) && SpansOk(h)
  }

  predicate IsFull(h: HeapState, a: nat)
    requires a in h.arenas
  {
    match h.arenas[a].desc
    case Class(c) => c < 7 && h.arenas[a].cnt == PerArena(c)
    case NoDesc => false
  }

  /** Between calls no arena is entirely free. */
  ghost predicate Inv(h: HeapState) {
    Ordered(h) && forall a :: a in h.arenas ==> !IsFull(h, a)
  }

  function PageNo(a: nat): int { (a - HEAP_START) / 4096 }

  ghost predicate InArena(h: HeapState, a: nat, p: int) {
    a in h.arenas && PageNo(a) <= p < PageNo(a) + PagesOf(h.arenas[a])
  }

  /** The pages of every arena are taken. */
  ghost predicate PagesTaken(h: HeapState, vbits: seq<bool>) {
    forall a, p :: InArena(h, a, p) ==> 0 <= p < |vbits| && vbits[p]
  }

  lemma LiveInside(h: HeapState, x: nat)
    requires Ordered(h) && x in h.live
    ensures var a := ArenaOf(x);
            a in h.arenas && a + 12 <= x && x + h.live[x] <= a + 4096 * PagesOf(h.arenas[a])
  {
    assert LiveOk(h, x);
    var a := ArenaOf(x);
    assert ArenaOk(h, a);
    if h.arenas[a].desc.Class? {
      BlockBack(a, h.arenas[a].desc.c, IndexOf(x, h.arenas[a].desc.c));
    }
  }

  lemma TwoBlocks(a: nat, c: nat, i: nat, j: nat, m: nat, n: nat)
    requires c < 7 && i != j && m <= Size(c) && n <= Size(c)
    ensures Block(a, c, i) + m <= Block(a, c, j) || Block(a, c, j) + n <= Block(a, c, i)
  {
    if i < j { BlocksApart(a, c, i, j); } else { BlocksApart(a, c, j, i); }
  }

  lemma SameArenaDisjoint(h: HeapState, x: nat, y: nat)
    requires Ordered(h) && x in h.live && y in h.live && x != y && ArenaOf(x) == ArenaOf(y)
    ensures x + h.live[x] <= y || y + h.live[y] <= x
  {
    assert LiveOk(h, x) && LiveOk(h, y);
    match h.arenas[ArenaOf(x)].desc
    case NoDesc =>
    case Class(c) => TwoBlocks(ArenaOf(x), c, IndexOf(x, c), IndexOf(y, c), h.live[x], h.live[y]);
  }

  /** Live allocations lie in the pages of their arenas, after the header, and no
      two of them overlap. */
  lemma LiveDisjoint(h: HeapState, x: nat, y: nat)
    requires Ordered(h) && x in h.live && y in h.live && x != y
    ensures x + h.live[x] <= y || y + h.live[y] <= x
  {
    if ArenaOf(x) == ArenaOf(y) {
      SameArenaDisjoint(h, x, y);
    } else {
      LiveInside(h, x);
      LiveInside(h, y);
      assert Apart(ArenaOf(x), PagesOf(h.arenas[ArenaOf(x)]), ArenaOf(y), PagesOf(h.arenas[ArenaOf(y)]));
    }
  }

  // ---------- Sets of indices ----------

  function Below(n: nat): (s: set<nat>)
    ensures |s| == n && forall i: nat :: i in s <==> i < n
  {
    if n == 0 then {} else Below(n - 1) + {n - 1}
  }

  /** A count that equals the number of blocks means that every block is free. */
  lemma FullHasAll(list: seq<nat>, a: nat, c: nat)
    requires c < 7 && |FreeSet(list, a, c)| == PerArena(c)
    ensures forall i: nat :: i < PerArena(c) ==> Block(a, c, i) in list
  {
    SubsetSize(FreeSet(list, a, c), Below(PerArena(c)));
    forall i: nat | i < PerArena(c)
      ensures Block(a, c, i) in list
    {
      assert i in Below(PerArena(c));
    }
  }

  lemma FreeSetBound(list: seq<nat>, a: nat, c: nat)
    requires c < 7
    ensures |FreeSet(list, a, c)| <= PerArena(c)
  {
    SubsetSize(FreeSet(list, a, c), Below(PerArena(c)));
  }

  /** Lists with the same blocks of an arena. */
  lemma FreeSetSame(list: seq<nat>, list': seq<nat>, a: nat, c: nat)
    requires c < 7 && a % 4096 == 0
    requires forall x :: ArenaOf(x) == a ==> (x in list <==> x in list')
    ensures FreeSet(list, a, c) == FreeSet(list', a, c)
  {
    forall i: nat | i < PerArena(c)
      ensures Block(a, c, i) in list <==> Block(a, c, i) in list'
    {
      BlockBack(a, c, i);
    }
  }

  /** One block more. */
  lemma FreeSetMore(list: seq<nat>, list': seq<nat>, a: nat, c: nat, x: nat)
    requires c < 7 && a % 4096 == 0 && ArenaOf(x) == a && x !in list
    requires IndexOf(x, c) < PerArena(c) && x == Block(a, c, IndexOf(x, c))
    requires forall y :: y in list' <==> y in list || y == x
    ensures |FreeSet(list', a, c)| == |FreeSet(list, a, c)| + 1
  {
    var k: nat := IndexOf(x, c);
    forall i: nat | i < PerArena(c)
      ensures Block(a, c, i) == x <==> i == k
    {
      BlockBack(a, c, i);
    }
    assert FreeSet(list', a, c) == FreeSet(list, a, c) + {k};
  }

  // ---------- Steps ----------

  lemma LiveSame(h: HeapState, u: HeapState, x: nat)
    requires x in h.live && LiveOk(h, x) && x in u.live && u.live[x] == h.live[x]
    requires ArenaOf(x) in u.arenas && u.arenas[ArenaOf(x)] == h.arenas[ArenaOf(x)]
    ensures LiveOk(u, x)
  {}

  /** An arena none of whose blocks is touched. */
  lemma OtherArena(h: HeapState, u: HeapState, b: nat)
    requires |h.lists| == 7 && |u.lists| == 7 && b in h.arenas && b in u.arenas && u.arenas[b] == h.arenas[b]
    requires ArenaOk(h, b)
    requires forall d: nat, x :: d < 7 && ArenaOf(x) == b ==> (x in u.lists[d] <==> x in h.lists[d])
    requires forall x :: ArenaOf(x) == b && x in h.live ==> x in u.live
    ensures ArenaOk(u, b)
  {
    match h.arenas[b].desc
    case NoDesc =>
      assert ArenaOf(b + 12) == b;
    case Class(d) =>
      FreeSetSame(h.lists[d], u.lists[d], b, d);
      forall i: nat | i < PerArena(d)
        ensures Block(b, d, i) in u.lists[d] || Block(b, d, i) in u.live
      {
        BlockBack(b, d, i);
      }
  }

  /** sys_malloc takes the front block of a free list. */
  function Popped(h: HeapState, c: nat, size: nat): HeapState
    requires c < |h.lists| && h.lists[c] != [] && ArenaOf(h.lists[c][0]) in h.arenas
    requires h.arenas[ArenaOf(h.lists[c][0])].cnt > 0
  {
    var x := h.lists[c][0];
    var a := ArenaOf(x);
    HeapState(h.arenas[a := h.arenas[a].(cnt := h.arenas[a].cnt - 1)], h.lists[c := h.lists[c][1..]], h.live[x := size])
  }

  lemma PopCount(h: HeapState, c: nat)
    requires Ordered(h) && c < 7 && h.lists[c] != []
    ensures var x := h.lists[c][0];
            var a := ArenaOf(x);
            && OnListOk(h, c, x) && a % 4096 == 0 && a >= HEAP_START && 0 < h.arenas[a].cnt <= PerArena(c)
            && |FreeSet(h.lists[c][1..], a, c)| == h.arenas[a].cnt - 1
    ensures NoDup(h.lists[c][1..]) && forall y :: y in h.lists[c][1..] <==> y in h.lists[c] && y != h.lists[c][0]
  {
    var x, list := h.lists[c][0], h.lists[c];
    assert x in list && OnListOk(h, c, x) && ArenaOk(h, ArenaOf(x));
    PopMember(list);
    FreeSetMore(list[1..], list, ArenaOf(x), c, x);
    FreeSetBound(list, ArenaOf(x), c);
  }

  lemma PopLists(h: HeapState, c: nat, size: nat)
    requires Ordered(h) && c < 7 && h.lists[c] != []
    requires ArenaOf(h.lists[c][0]) in h.arenas && h.arenas[ArenaOf(h.lists[c][0])].cnt > 0
    ensures ListsOk(Popped(h, c, size))
  {
    PopCount(h, c);
    var u, x := Popped(h, c, size), h.lists[c][0];
    forall d: nat, y | d < 7 && y in u.lists[d]
      ensures OnListOk(u, d, y)
    {
      assert y in h.lists[d] && OnListOk(h, d, y);
    }
  }

  lemma PopArenas(h: HeapState, c: nat, size: nat)
    requires Ordered(h) && c < 7 && h.lists[c] != []
    requires ArenaOf(h.lists[c][0]) in h.arenas && h.arenas[ArenaOf(h.lists[c][0])].cnt > 0
    ensures ArenasOk(Popped(h, c, size))
  {
    PopCount(h, c);
    var u, x := Popped(h, c, size), h.lists[c][0];
    forall b | b in u.arenas
      ensures ArenaOk(u, b)
    {
      assert ArenaOk(h, b);
      if b != ArenaOf(x) { OtherArena(h, u, b); }
    }
  }

  lemma PopLives(h: HeapState, c: nat, size: nat)
    requires Ordered(h) && c < 7 && h.lists[c] != [] && 0 < size <= Size(c)
    requires ArenaOf(h.lists[c][0]) in h.arenas && h.arenas[ArenaOf(h.lists[c][0])].cnt > 0
    ensures LivesOk(Popped(h, c, size)) && SpansOk(Popped(h, c, size))
  {
    PopCount(h, c);
    var u := Popped(h, c, size);
    forall y | y in u.live
      ensures LiveOk(u, y)
    {
      if y != h.lists[c][0] { assert LiveOk(h, y); }
    }
  }

  /** The block handed out was not live, and every arena but its own keeps its
      count. */
  lemma PopKeeps(h: HeapState, c: nat, size: nat)
    requires Ordered(h) && c < 7 && h.lists[c] != [] && 0 < size <= Size(c)
    ensures ArenaOf(h.lists[c][0]) in h.arenas && h.arenas[ArenaOf(h.lists[c][0])].cnt > 0
    ensures h.lists[c][0] !in h.live && Ordered(Popped(h, c, size))
    ensures !IsFull(Popped(h, c, size), ArenaOf(h.lists[c][0]))
  {
    PopCount(h, c);
    PopLists(h, c, size);
    PopArenas(h, c, size);
    PopLives(h, c, size);
  }

  // ---------- A new arena ----------

  /** list_append of the first k blocks of an arena, in order. */
  function WithBlocks(list: seq<nat>, a: nat, c: nat, k: nat): seq<nat>
    requires c < 7
  {
    if k == 0 then list else WithBlocks(list, a, c, k - 1) + [Block(a, c, k - 1)]
  }

  /** None of them was on the list, so that the ASSERT before each append holds. */
  lemma {:induction false} WithBlocksMembers(list: seq<nat>, a: nat, c: nat, k: nat)
    requires c < 7 && a % 4096 == 0 && k <= PerArena(c)
    requires NoDup(list) && forall x :: x in list ==> ArenaOf(x) != a
    ensures NoDup(WithBlocks(list, a, c, k))
    ensures forall i: nat :: i < PerArena(c) ==> (Block(a, c, i) in WithBlocks(list, a, c, k) <==> i < k)
    ensures forall x :: ArenaOf(x) != a ==> (x in WithBlocks(list, a, c, k) <==> x in list)
    ensures forall x :: x in WithBlocks(list, a, c, k) && ArenaOf(x) == a ==>
              IndexOf(x, c) < PerArena(c) && x == Block(a, c, IndexOf(x, c))
    decreases k
  {
    if k == 0 {
      forall i: nat | i < PerArena(c)
        ensures Block(a, c, i) !in list
      {
        BlockBack(a, c, i);
      }
    } else {
      WithBlocksMembers(list, a, c, k - 1);
      BlockBack(a, c, k - 1);
      forall i: nat | i < PerArena(c)
        ensures Block(a, c, i) == Block(a, c, k - 1) <==> i == k - 1
      {
        BlockBack(a, c, i);
      }
      AppendMember(WithBlocks(list, a, c, k - 1), Block(a, c, k - 1));
    }
  }

  /** They follow in the order of their addresses, one size apart. */
  lemma {:induction false} WithBlocksIs(list: seq<nat>, a: nat, c: nat, k: nat)
    requires c < 7
    ensures WithBlocks(list, a, c, k) == list + seq(k, i requires 0 <= i < k => a + 12 + i * Size(c))
  {
    if k > 0 {
      WithBlocksIs(list, a, c, k - 1);
      BlockAddress(a, c, k - 1);
    }
  }

  function Grown(h: HeapState, a: nat, c: nat): HeapState
    requires c < 7 && |h.lists| == 7
  {
    h.(arenas := h.arenas[a := Arena(Class(c), PerArena(c), false)],
       lists := h.lists[c := WithBlocks(h.lists[c], a, c, PerArena(c))])
  }

  /** A page that no arena uses. */
  ghost predicate NewPages(h: HeapState, a: nat, n: nat) {
    && a % 4096 == 0 && a >= HEAP_START && n >= 1
    && forall b :: b in h.arenas ==> Apart(a, n, b, PagesOf(h.arenas[b]))
  }

  lemma NewIsNew(h: HeapState, a: nat, n: nat)
    requires Ordered(h) && NewPages(h, a, n)
    ensures a !in h.arenas
    ensures forall c: nat, x :: c < 7 && x in h.lists[c] ==> ArenaOf(x) != a
    ensures forall x :: x in h.live ==> ArenaOf(x) != a
  {
    forall b | b in h.arenas
      ensures b != a
    {
      assert ArenaOk(h, b);
    }
    forall c: nat, x | c < 7 && x in h.lists[c] ensures ArenaOf(x) != a { assert OnListOk(h, c, x); }
    forall x | x in h.live ensures ArenaOf(x) != a { assert LiveOk(h, x); }
  }

  lemma GrowLists(h: HeapState, a: nat, c: nat)
    requires Ordered(h) && NewPages(h, a, 1) && c < 7
    ensures ListsOk(Grown(h, a, c))
  {
    NewIsNew(h, a, 1);
    WithBlocksMembers(h.lists[c], a, c, PerArena(c));
    var u := Grown(h, a, c);
    forall d: nat, y | d < 7 && y in u.lists[d]
      ensures OnListOk(u, d, y)
    {
      if y in h.lists[d] { assert OnListOk(h, d, y); }
    }
  }

  lemma GrowArenas(h: HeapState, a: nat, c: nat)
    requires Ordered(h) && NewPages(h, a, 1) && c < 7
    ensures ArenasOk(Grown(h, a, c))
  {
    NewIsNew(h, a, 1);
    WithBlocksMembers(h.lists[c], a, c, PerArena(c));
    var u := Grown(h, a, c);
    forall b | b in u.arenas
      ensures ArenaOk(u, b)
    {
      if b == a {
        assert FreeSet(u.lists[c], a, c) == Below(PerArena(c));
      } else {
        assert ArenaOk(h, b);
        OtherArena(h, u, b);
      }
    }
  }

  lemma GrowLives(h: HeapState, a: nat, c: nat)
    requires Ordered(h) && NewPages(h, a, 1) && c < 7
    ensures LivesOk(Grown(h, a, c)) && SpansOk(Grown(h, a, c))
  {
    NewIsNew(h, a, 1);
    var u := Grown(h, a, c);
    forall y | y in u.live
      ensures LiveOk(u, y)
    {
      assert LiveOk(h, y);
    }
  }

  lemma GrowKeeps(h: HeapState, a: nat, c: nat)
    requires Ordered(h) && NewPages(h, a, 1) && c < 7
    ensures Ordered(Grown(h, a, c)) && Grown(h, a, c).lists[c] != [] && a !in h.arenas
    ensures h.lists[c] == [] ==> Grown(h, a, c).lists[c][0] == Block(a, c, 0)
  {
    NewIsNew(h, a, 1);
    GrowLists(h, a, c);
    GrowArenas(h, a, c);
    GrowLives(h, a, c);
    WithBlocksFirst(h.lists[c], a, c, PerArena(c));
  }

  lemma {:induction false} WithBlocksFirst(list: seq<nat>, a: nat, c: nat, k: nat)
    requires c < 7 && k > 0
    ensures WithBlocks(list, a, c, k) != []
    ensures list == [] ==> WithBlocks(list, a, c, k)[0] == Block(a, c, 0)
    decreases k
  {
    if k > 1 { WithBlocksFirst(list, a, c, k - 1); }
  }

  // ---------- Freeing a block ----------

  function Pushed(h: HeapState, c: nat, x: nat): HeapState
    requires c < |h.lists| && ArenaOf(x) in h.arenas
  {
    var a := ArenaOf(x);
    HeapState(h.arenas[a := h.arenas[a].(cnt := h.arenas[a].cnt + 1)], h.lists[c := h.lists[c] + [x]], h.live - {x})
  }

  /** A live block of a small arena. */
  ghost predicate SmallLive(h: HeapState, c: nat, x: nat) {
    x in h.live && ArenaOf(x) in h.arenas && h.arenas[ArenaOf(x)].desc == Class(c) && c < 7
  }

  lemma PushCount(h: HeapState, c: nat, x: nat)
    requires Ordered(h) && SmallLive(h, c, x)
    ensures var a := ArenaOf(x);
            && a % 4096 == 0 && h.arenas[a].cnt < PerArena(c) && x !in h.lists[c]
            && IndexOf(x, c) < PerArena(c) && x == Block(a, c, IndexOf(x, c))
            && |FreeSet(h.lists[c] + [x], a, c)| == h.arenas[a].cnt + 1
    ensures NoDup(h.lists[c] + [x]) && forall y :: y in h.lists[c] + [x] <==> y in h.lists[c] || y == x
  {
    var list := h.lists[c];
    assert LiveOk(h, x) && ArenaOk(h, ArenaOf(x));
    assert x in list ==> OnListOk(h, c, x);
    AppendMember(list, x);
    FreeSetMore(list, list + [x], ArenaOf(x), c, x);
    FreeSetBound(list + [x], ArenaOf(x), c);
  }

  lemma PushLists(h: HeapState, c: nat, x: nat)
    requires Ordered(h) && SmallLive(h, c, x)
    ensures ListsOk(Pushed(h, c, x))
  {
    PushCount(h, c, x);
    var u := Pushed(h, c, x);
    forall d: nat, y | d < 7 && y in u.lists[d]
      ensures OnListOk(u, d, y)
    {
      if y in h.lists[d] { assert OnListOk(h, d, y); }
    }
  }

  lemma PushArenas(h: HeapState, c: nat, x: nat)
    requires Ordered(h) && SmallLive(h, c, x)
    ensures ArenasOk(Pushed(h, c, x))
  {
    PushCount(h, c, x);
    var u := Pushed(h, c, x);
    forall b | b in u.arenas
      ensures ArenaOk(u, b)
    {
      assert ArenaOk(h, b);
      if b != ArenaOf(x) { OtherArena(h, u, b); }
    }
  }

  lemma PushLives(h: HeapState, c: nat, x: nat)
    requires Ordered(h) && SmallLive(h, c, x)
    ensures LivesOk(Pushed(h, c, x)) && SpansOk(Pushed(h, c, x))
  {
    var u := Pushed(h, c, x);
    forall y | y in u.live
      ensures LiveOk(u, y)
    {
      assert LiveOk(h, y);
    }
  }

  lemma PushKeeps(h: HeapState, c: nat, x: nat)
    requires Ordered(h) && SmallLive(h, c, x)
    ensures Ordered(Pushed(h, c, x)) && h.arenas[ArenaOf(x)].cnt < PerArena(c)
  {
    PushCount(h, c, x);
    PushLists(h, c, x);
    PushArenas(h, c, x);
    PushLives(h, c, x);
  }

  // ---------- Giving an arena back ----------

  /** list_remove of an arena's first k blocks. */
  function WithoutBlocks(list: seq<nat>, a: nat, c: nat, k: nat): seq<nat>
    requires c < 7
  {
    if k == 0 then list else Without(WithoutBlocks(list, a, c, k - 1), Block(a, c, k - 1))
  }

  ghost predicate BlocksListed(list: seq<nat>, a: nat, c: nat)
    requires c < 7
  {
    forall i: nat :: i < PerArena(c) ==> Block(a, c, i) in list
  }

  /** One round of the loop that removes an arena's blocks. */
  lemma RemoveStep(list: seq<nat>, a: nat, c: nat, k: nat)
    requires c < 7 && a % 4096 == 0 && k < PerArena(c) && NoDup(list) && BlocksListed(list, a, c)
    ensures Block(a, c, k) in WithoutBlocks(list, a, c, k)
    ensures WithoutBlocks(list, a, c, k + 1) == Without(WithoutBlocks(list, a, c, k), Block(a, c, k))
  {
    WithoutBlocksMembers(list, a, c, k);
  }

  /** The others are still there: the ASSERT before each removal holds. */
  lemma {:induction false} WithoutBlocksMembers(list: seq<nat>, a: nat, c: nat, k: nat)
    requires c < 7 && a % 4096 == 0 && k <= PerArena(c) && NoDup(list)
    ensures NoDup(WithoutBlocks(list, a, c, k))
    ensures forall x :: ArenaOf(x) != a ==> (x in WithoutBlocks(list, a, c, k) <==> x in list)
    ensures forall x :: x in WithoutBlocks(list, a, c, k) ==> x in list
    ensures forall i: nat :: i < PerArena(c) ==>
              (Block(a, c, i) in WithoutBlocks(list, a, c, k) <==> i >= k && Block(a, c, i) in list)
    decreases k
  {
    if k > 0 {
      WithoutBlocksMembers(list, a, c, k - 1);
      BlockBack(a, c, k - 1);
      forall i: nat | i < PerArena(c)
        ensures Block(a, c, i) == Block(a, c, k - 1) <==> i == k - 1
      {
        BlockBack(a, c, i);
      }
    }
  }

  /** What is left of a list without an arena's blocks, in the old order. */
  function Elsewhere(list: seq<nat>, a: nat): (r: seq<nat>)
    ensures forall x :: x in r <==> x in list && ArenaOf(x) != a
  {
    if list == [] then []
    else if ArenaOf(list[0]) == a then Elsewhere(list[1..], a)
    else [list[0]] + Elsewhere(list[1..], a)
  }

  lemma {:induction false} ElsewhereNothing(list: seq<nat>, a: nat)
    requires forall x :: x in list ==> ArenaOf(x) == a
    ensures Elsewhere(list, a) == []
  {
    if list != [] { ElsewhereNothing(list[1..], a); }
  }

  lemma {:induction false} ElsewhereLast(list: seq<nat>, x: nat)
    ensures Elsewhere(list + [x], ArenaOf(x)) == Elsewhere(list, ArenaOf(x))
  {
    if list != [] {
      assert (list + [x])[1..] == list[1..] + [x];
      ElsewhereLast(list[1..], x);
    }
  }

  /** The elements that are in no `s`, in the old order. */
  function Kept(list: seq<nat>, s: set<nat>): seq<nat> {
    if list == [] then [] else if list[0] in s then Kept(list[1..], s) else [list[0]] + Kept(list[1..], s)
  }

  lemma {:induction false} KeptLess(list: seq<nat>, s: set<nat>, x: nat)
    ensures Without(Kept(list, s), x) == Kept(list, s + {x}) 
  {
    if list != [] { KeptLess(list[1..], s, x); }
  }

  lemma {:induction false} KeptNone(list: seq<nat>)
    ensures Kept(list, {}) == list
  {
    if list != [] { KeptNone(list[1..]); }
  }

  lemma {:induction false} KeptElsewhere(list: seq<nat>, s: set<nat>, a: nat)
    requires forall x :: x in list ==> (x in s <==> ArenaOf(x) == a)
    ensures Kept(list, s) == Elsewhere(list, a)
  {
    if list != [] { KeptElsewhere(list[1..], s, a); }
  }

  /** The addresses of an arena's first k blocks. */
  function FirstBlocks(a: nat, c: nat, k: nat): set<nat>
    requires c < 7
  {
    if k == 0 then {} else FirstBlocks(a, c, k - 1) + {Block(a, c, k - 1)}
  }

  lemma {:induction false} FirstBlocksHas(a: nat, c: nat, k: nat, i: nat)
    requires c < 7 && i < k
    ensures Block(a, c, i) in FirstBlocks(a, c, k)
  {
    if i < k - 1 { FirstBlocksHas(a, c, k - 1, i); }
  }

  lemma {:induction false} FirstBlocksOnly(a: nat, c: nat, k: nat, x: nat)
    requires c < 7 && x in FirstBlocks(a, c, k) && a % 4096 == 0 && k <= PerArena(c)
    ensures ArenaOf(x) == a
  {
    BlockBack(a, c, k - 1);
    if x != Block(a, c, k - 1) { FirstBlocksOnly(a, c, k - 1, x); }
  }

  lemma {:induction false} WithoutBlocksKept(list: seq<nat>, a: nat, c: nat, k: nat)
    requires c < 7
    ensures WithoutBlocks(list, a, c, k) == Kept(list, FirstBlocks(a, c, k))
  {
    if k == 0 {
      KeptNone(list);
    } else {
      WithoutBlocksKept(list, a, c, k - 1);
      KeptLess(list, FirstBlocks(a, c, k - 1), Block(a, c, k - 1));
    }
  }

  /** With an arena given back its blocks leave the list, and the others keep their
      order. */
  lemma WithoutBlocksIs(h: HeapState, a: nat, c: nat)
    requires Ordered(h) && c < 7 && a % 4096 == 0
    ensures WithoutBlocks(h.lists[c], a, c, PerArena(c)) == Elsewhere(h.lists[c], a)
  {
    var list, s := h.lists[c], FirstBlocks(a, c, PerArena(c));
    WithoutBlocksKept(list, a, c, PerArena(c));
    forall x | x in list
      ensures x in s <==> ArenaOf(x) == a
    {
      assert OnListOk(h, c, x);
      if x in s { FirstBlocksOnly(a, c, PerArena(c), x); }
      if ArenaOf(x) == a { FirstBlocksHas(a, c, PerArena(c), IndexOf(x, c)); }
    }
    KeptElsewhere(list, s, a);
  }

  function Released(h: HeapState, a: nat, c: nat): HeapState
    requires c < 7 && c < |h.lists|
  {
    h.(arenas := h.arenas - {a}, lists := h.lists[c := WithoutBlocks(h.lists[c], a, c, PerArena(c))])
  }

  /** A small arena all of whose blocks are free: none is live. */
  ghost predicate AllFree(h: HeapState, a: nat, c: nat) {
    && c < 7 && |h.lists| == 7 && a in h.arenas && h.arenas[a].desc == Class(c) && h.arenas[a].cnt == PerArena(c)
  }

  lemma AllFreeOnList(h: HeapState, a: nat, c: nat)
    requires Ordered(h) && AllFree(h, a, c)
    ensures a % 4096 == 0 && BlocksListed(h.lists[c], a, c)
    ensures forall x :: x in h.live ==> ArenaOf(x) != a
  {
    assert ArenaOk(h, a);
    FullHasAll(h.lists[c], a, c);
    forall x | x in h.live
      ensures ArenaOf(x) != a
    {
      assert LiveOk(h, x);
      var k := IndexOf(x, c);
      assert ArenaOf(x) == a ==> Block(a, c, k) in h.lists[c];
      assert x in h.lists[c] ==> OnListOk(h, c, x);
    }
  }

  lemma ReleaseLists(h: HeapState, a: nat, c: nat)
    requires Ordered(h) && AllFree(h, a, c)
    ensures ListsOk(Released(h, a, c))
  {
    AllFreeOnList(h, a, c);
    WithoutBlocksMembers(h.lists[c], a, c, PerArena(c));
    var u := Released(h, a, c);
    forall d: nat, y | d < 7 && y in u.lists[d]
      ensures OnListOk(u, d, y)
    {
      assert y in h.lists[d] && OnListOk(h, d, y);
      assert ArenaOf(y) == a ==> d == c;
    }
  }

  lemma ReleaseRest(h: HeapState, a: nat, c: nat)
    requires Ordered(h) && AllFree(h, a, c)
    ensures ArenasOk(Released(h, a, c)) && LivesOk(Released(h, a, c)) && SpansOk(Released(h, a, c))
  {
    AllFreeOnList(h, a, c);
    WithoutBlocksMembers(h.lists[c], a, c, PerArena(c));
    var u := Released(h, a, c);
    forall b | b in u.arenas
      ensures ArenaOk(u, b)
    {
      assert ArenaOk(h, b);
      OtherArena(h, u, b);
    }
    forall y | y in u.live ensures LiveOk(u, y) { assert LiveOk(h, y); }
  }

  lemma ReleaseKeeps(h: HeapState, a: nat, c: nat)
    requires Ordered(h) && AllFree(h, a, c)
    ensures Ordered(Released(h, a, c))
  {
    ReleaseLists(h, a, c);
    ReleaseRest(h, a, c);
  }

  // ---------- Large allocations ----------

  function WithLarge(h: HeapState, a: nat, n: nat, size: nat): HeapState {
    h.(arenas := h.arenas[a := Arena(NoDesc, n, true)], live := h.live[a + 12 := size])
  }

  lemma LargeKeeps(h: HeapState, a: nat, n: nat, size: nat)
    requires Ordered(h) && NewPages(h, a, n) && 0 < size && size + 12 <= 4096 * n
    ensures Ordered(WithLarge(h, a, n, size)) && a + 12 !in h.live && a !in h.arenas
  {
    NewIsNew(h, a, n);
    OffsetBack(a, 12);
    LargeLists(h, a, n, size);
    LargeArenas(h, a, n, size);
    LargeLives(h, a, n, size);
    LargeSpans(h, a, n, size);
  }

  lemma LargeLists(h: HeapState, a: nat, n: nat, size: nat)
    requires Ordered(h) && NewPages(h, a, n)
    ensures ListsOk(WithLarge(h, a, n, size))
  {
    NewIsNew(h, a, n);
    OffsetBack(a, 12);
    forall d: nat, y | d < 7 && y in h.lists[d]
      ensures OnListOk(WithLarge(h, a, n, size), d, y)
    {
      assert OnListOk(h, d, y);
    }
  }

  lemma LargeArenas(h: HeapState, a: nat, n: nat, size: nat)
    requires Ordered(h) && NewPages(h, a, n)
    ensures ArenasOk(WithLarge(h, a, n, size))
  {
    NewIsNew(h, a, n);
    var u := WithLarge(h, a, n, size);
    forall b | b in u.arenas
      ensures ArenaOk(u, b)
    {
      if b != a {
        assert ArenaOk(h, b);
        OtherArena(h, u, b);
      }
    }
  }

  lemma LargeLives(h: HeapState, a: nat, n: nat, size: nat)
    requires LivesOk(h) && a % 4096 == 0 && (forall x :: x in h.live ==> ArenaOf(x) != a)
    requires 0 < size && size + 12 <= 4096 * n
    ensures LivesOk(WithLarge(h, a, n, size))
  {
    var u := WithLarge(h, a, n, size);
    forall y | y in u.live
      ensures LiveOk(u, y)
    {
      if y == a + 12 { LargeLive(u, a, n); } else { LiveElsewhere(h, u, a, y); }
    }
  }

  /** The one block of a large arena. */
  lemma LargeLive(u: HeapState, a: nat, n: nat)
    requires a % 4096 == 0 && a in u.arenas && u.arenas[a] == Arena(NoDesc, n, true)
    requires a + 12 in u.live && 0 < u.live[a + 12] && u.live[a + 12] + 12 <= 4096 * n
    ensures LiveOk(u, a + 12)
  {
    OffsetBack(a, 12);
  }

  lemma LargeSpans(h: HeapState, a: nat, n: nat, size: nat)
    requires SpansOk(h) && NewPages(h, a, n) && a !in h.arenas
    ensures SpansOk(WithLarge(h, a, n, size))
  {}

  /** A live block stays in order when another arena changes. */
  lemma LiveElsewhere(h: HeapState, u: HeapState, a: nat, y: nat)
    requires LivesOk(h) && y in h.live && y in u.live && u.live[y] == h.live[y] && ArenaOf(y) != a
    requires forall b :: b in h.arenas && b != a ==> b in u.arenas && u.arenas[b] == h.arenas[b]
    ensures LiveOk(u, y)
  {
    assert LiveOk(h, y);
  }

  function WithoutLarge(h: HeapState, a: nat): HeapState {
    h.(arenas := h.arenas - {a}, live := h.live - {a + 12})
  }

  lemma LargeBack(a: nat)
    requires a % 4096 == 0
    ensures ArenaOf(a + 12) == a
  {}

  /** The one live block of a large arena. */
  lemma LargeAlone(h: HeapState, a: nat)
    requires Ordered(h) && a in h.arenas && h.arenas[a].desc == NoDesc
    ensures a % 4096 == 0 && a + 12 in h.live && ArenaOf(a + 12) == a
    ensures forall y :: y in h.live && y != a + 12 ==> ArenaOf(y) != a
    ensures forall c: nat, y :: c < 7 && y in h.lists[c] ==> ArenaOf(y) != a
  {
    assert ArenaOk(h, a);
    LargeBack(a);
    forall y | y in h.live && y != a + 12 ensures ArenaOf(y) != a { assert LiveOk(h, y); }
    forall c: nat, y | c < 7 && y in h.lists[c] ensures ArenaOf(y) != a { assert OnListOk(h, c, y); }
  }

  lemma WithoutLargeLists(h: HeapState, a: nat)
    requires Ordered(h) && a in h.arenas && h.arenas[a].desc == NoDesc
    ensures ListsOk(WithoutLarge(h, a))
  {
    LargeAlone(h, a);
    var u := WithoutLarge(h, a);
    forall d: nat, y | d < 7 && y in u.lists[d]
      ensures OnListOk(u, d, y)
    {
      assert y in h.lists[d] && OnListOk(h, d, y);
    }
  }

  lemma OtherLive(h: HeapState, u: HeapState, a: nat, y: nat)
    requires y in h.live && LiveOk(h, y) && ArenaOf(y) != a && y != a + 12
    requires u.arenas == h.arenas - {a} && u.live == h.live - {a + 12}
    ensures y in u.live && LiveOk(u, y)
  {
    LiveSame(h, u, y);
  }

  lemma WithoutLargeLives(h: HeapState, u: HeapState, a: nat)
    requires a in h.arenas && LivesOk(h) && u.arenas == h.arenas - {a} && u.live == h.live - {a + 12}
    requires forall y :: y in h.live && y != a + 12 ==> ArenaOf(y) != a
    ensures LivesOk(u)
  {
    forall y | y in u.live
      ensures LiveOk(u, y)
    {
      assert y in h.live && y != a + 12;
      OtherLive(h, u, a, y);
    }
  }

  lemma WithoutLargeKeeps(h: HeapState, a: nat)
    requires Ordered(h) && a in h.arenas && h.arenas[a].desc == NoDesc
    ensures Ordered(WithoutLarge(h, a))
  {
    var u := WithoutLarge(h, a);
    LargeAlone(h, a);
    WithoutLargeLists(h, a);
    WithoutLargeLives(h, u, a);
    WithoutLargeArenas(h, a);
  }

  lemma WithoutLargeArenas(h: HeapState, a: nat)
    requires ArenasOk(h) && a in h.arenas && a % 4096 == 0
    ensures ArenasOk(WithoutLarge(h, a))
  {
    OffsetBack(a, 12);
    var u := WithoutLarge(h, a);
    forall b | b in u.arenas
      ensures ArenaOk(u, b)
    {
      assert ArenaOk(h, b);
      OtherArena(h, u, b);
    }
  }

  // ---------- Pages ----------

  lemma PageBack(a: nat)
    requires a % 4096 == 0 && a >= HEAP_START
    ensures PageNo(a) >= 0 && a == HEAP_START + 4096 * PageNo(a)
  {}

  /** Pages that were free belong to no arena. */
  lemma FreePagesAreNew(h: HeapState, vbits: seq<bool>, p: nat, n: nat)
    requires Ordered(h) && PagesTaken(h, vbits) && n >= 1
    requires p + n <= |vbits| && forall q :: p <= q < p + n ==> !vbits[q]
    ensures NewPages(h, HEAP_START + 4096 * p, n)
  {
    var a := HEAP_START + 4096 * p;
    forall b | b in h.arenas
      ensures Apart(a, n, b, PagesOf(h.arenas[b]))
    {
      ArenaSpan(h, vbits, b);
      var pb, m := PageNo(b), PagesOf(h.arenas[b]);
      assert p <= pb < p + n ==> InArena(h, b, pb);
      assert pb <= p < pb + m ==> InArena(h, b, p);
    }
  }

  /** A new arena on pages just taken. */
  lemma TakenWithNew(h: HeapState, u: HeapState, vbits: seq<bool>, vbits': seq<bool>, p: nat, n: nat)
    requires PagesTaken(h, vbits) && p + n <= |vbits| && vbits' == Filled(vbits, p, p + n, true)
    requires var a := HEAP_START + 4096 * p;
             a in u.arenas && PagesOf(u.arenas[a]) <= n && u.arenas == h.arenas[a := u.arenas[a]]
    ensures PagesTaken(u, vbits')
  {
    var a := HEAP_START + 4096 * p;
    assert PageNo(a) == p;
    forall b, q | InArena(u, b, q)
      ensures 0 <= q < |vbits'| && vbits'[q]
    {
      if b != a { assert InArena(h, b, q); }
    }
  }

  lemma ArenaSpan(h: HeapState, vbits: seq<bool>, a: nat)
    requires Ordered(h) && PagesTaken(h, vbits) && a in h.arenas
    ensures a % 4096 == 0 && PageNo(a) >= 0 && PageNo(a) + PagesOf(h.arenas[a]) <= |vbits|
    ensures a == HEAP_START + 4096 * PageNo(a)
    ensures forall q :: PageNo(a) <= q < PageNo(a) + PagesOf(h.arenas[a]) ==> vbits[q]
  {
    assert ArenaOk(h, a);
    PageBack(a);
    var p, n := PageNo(a), PagesOf(h.arenas[a]);
    assert InArena(h, a, p + n - 1);
    forall q | p <= q < p + n ensures vbits[q] { assert InArena(h, a, q); }
  }

  /** Arenas that stay, and one that goes together with its pages. */
  lemma TakenWithout(h: HeapState, u: HeapState, vbits: seq<bool>, a: nat, p: int, n: nat)
    requires Ordered(h) && PagesTaken(h, vbits) && a in h.arenas && u.arenas == h.arenas - {a}
    requires n == PagesOf(h.arenas[a]) && p == PageNo(a) >= 0
    ensures PagesTaken(u, Filled(vbits, p, p + n, false))
  {
    ArenaSpan(h, vbits, a);
    forall b, q | InArena(u, b, q)
      ensures 0 <= q < |vbits| && vbits[q] && !(PageNo(a) <= q < PageNo(a) + PagesOf(h.arenas[a]))
    {
      assert InArena(h, b, q);
      ArenaSpan(h, vbits, b);
      assert Apart(a, PagesOf(h.arenas[a]), b, PagesOf(h.arenas[b]));
    }
  }

  lemma TakenSame(h: HeapState, u: HeapState, vbits: seq<bool>)
    requires PagesTaken(h, vbits) && u.arenas.Keys == h.arenas.Keys
    requires forall b :: b in u.arenas ==> PagesOf(u.arenas[b]) == PagesOf(h.arenas[b])
    ensures PagesTaken(u, vbits)
  {
    forall b, q | InArena(u, b, q)
      ensures 0 <= q < |vbits| && vbits[q]
    {
      assert InArena(h, b, q);
    }
  }

  lemma PopPages(h: HeapState, c: nat, size: nat, vbits: seq<bool>)
    requires Ordered(h) && c < 7 && h.lists[c] != [] && PagesTaken(h, vbits)
    requires ArenaOf(h.lists[c][0]) in h.arenas && h.arenas[ArenaOf(h.lists[c][0])].cnt > 0
    ensures PagesTaken(Popped(h, c, size), vbits)
    ensures Inv(h) && Ordered(Popped(h, c, size)) ==> Inv(Popped(h, c, size))
  {
    PopCount(h, c);
    TakenSame(h, Popped(h, c, size), vbits);
  }

  /** The only full arena is the new one, and its first block is taken at once. */
  lemma GrownPopped(h: HeapState, a: nat, c: nat, size: nat)
    requires Inv(h) && NewPages(h, a, 1) && c < 7 && h.lists[c] == [] && 0 < size <= Size(c)
    ensures var g := Grown(h, a, c);
            && Ordered(g) && g.lists[c] != [] && ArenaOf(g.lists[c][0]) == a && a in g.arenas && g.arenas[a].cnt > 0
            && Inv(Popped(g, c, size))
  {
    GrowKeeps(h, a, c);
    BlockBack(a, c, 0);
    PopKeeps(Grown(h, a, c), c, size);
  }

  lemma PushPages(h: HeapState, c: nat, x: nat, vbits: seq<bool>)
    requires Inv(h) && SmallLive(h, c, x) && PagesTaken(h, vbits) && Ordered(Pushed(h, c, x))
    ensures PagesTaken(Pushed(h, c, x), vbits)
    ensures var u, a := Pushed(h, c, x), ArenaOf(x);
            && (forall b :: b in u.arenas && b != a ==> !IsFull(u, b))
            && (u.arenas[a].cnt == PerArena(c) ==> AllFree(u, a, c))
            && (u.arenas[a].cnt != PerArena(c) ==> Inv(u))
  {
    TakenSame(h, Pushed(h, c, x), vbits);
  }

  lemma PresentIfTaken(m: Memory, p: nat, n: nat)
    requires Agree(m) && p + n <= |m.vbits| && forall q :: p <= q < p + n ==> m.vbits[q]
    ensures p + n <= |m.ptes| && forall q :: p <= q < p + n ==> m.ptes[q].present
  {}

  lemma LargeMade(h: HeapState, vbits: seq<bool>, vbits': seq<bool>, p: nat, n: nat, size: nat)
    requires vbits' == Filled(vbits, p, p + n, true)
    requires Inv(h) && PagesTaken(h, vbits) && n >= 1 && 0 < size && size + 12 <= 4096 * n
    requires p + n <= |vbits| && forall q :: p <= q < p + n ==> !vbits[q]
    ensures var a := HEAP_START + 4096 * p;
            var u := WithLarge(h, a, n, size);
            Inv(u) && PagesTaken(u, vbits') && a + 12 !in h.live
  {
    var a := HEAP_START + 4096 * p;
    FreePagesAreNew(h, vbits, p, n);
    LargeKeeps(h, a, n, size);
    TakenWithNew(h, WithLarge(h, a, n, size), vbits, vbits', p, n);
  }

  /** A new arena whose first block is handed out. */
  lemma SmallMade(h: HeapState, vbits: seq<bool>, vbits': seq<bool>, p: nat, c: nat, size: nat)
    requires vbits' == Filled(vbits, p, p + 1, true)
    requires Inv(h) && PagesTaken(h, vbits) && c < 7 && h.lists[c] == [] && 0 < size <= Size(c)
    requires p < |vbits| && !vbits[p]
    ensures var a := HEAP_START + 4096 * p;
            var g := Grown(h, a, c);
            && a % 4096 == 0 && NewPages(h, a, 1) && Ordered(g) && g.lists[c] != [] && ArenaOf(g.lists[c][0]) == a
            && a in g.arenas && g.arenas[a].cnt > 0 && g.live == h.live && g.lists[c][0] !in h.live
            && Inv(Popped(g, c, size)) && PagesTaken(Popped(g, c, size), vbits')
  {
    var a := HEAP_START + 4096 * p;
    var g := Grown(h, a, c);
    FreePagesAreNew(h, vbits, p, 1);
    GrownPopped(h, a, c, size);
    PopKeeps(g, c, size);
    TakenWithNew(h, g, vbits, vbits', p, 1);
    PopPages(g, c, size, vbits');
  }

  lemma WithoutLargeInv(h: HeapState, a: nat)
    requires Inv(h) && a in h.arenas && h.arenas[a].desc == NoDesc
    ensures Inv(WithoutLarge(h, a)) && PagesOf(h.arenas[a]) == h.arenas[a].cnt >= 1
  {
    assert ArenaOk(h, a);
    WithoutLargeKeeps(h, a);
    forall b | b in WithoutLarge(h, a).arenas
      ensures !IsFull(WithoutLarge(h, a), b)
    {
      assert !IsFull(h, b);
    }
  }

  /** The n pages from p on are mapped, and the heap is in order without them. */
  ghost predicate Returnable(h: HeapState, m: Memory, p: int, n: nat) {
    && Inv(h) && n >= 1 && p >= 0 && p + n <= |m.ptes| && (forall q :: p <= q < p + n ==> m.ptes[q].present)
    && PagesTaken(h, Filled(m.vbits, p, p + n, false))
  }

  lemma ArenaFreed(h: HeapState, m: Memory, a: nat, c: nat, p: int)
    requires p == PageNo(a)
    requires Ordered(h) && PagesTaken(h, m.vbits) && Agree(m) && AllFree(h, a, c)
    requires forall b :: b in h.arenas && b != a ==> !IsFull(h, b)
    ensures Returnable(Released(h, a, c), m, p, 1)
  {
    ReleasedInv(h, a, c);
    PagesBack(h, Released(h, a, c), m, a, p, 1);
  }

  /** An arena that is gone leaves pages to give back. */
  lemma PagesBack(h: HeapState, u: HeapState, m: Memory, a: nat, p: int, n: nat)
    requires a in h.arenas && p == PageNo(a) && n == PagesOf(h.arenas[a]) >= 1
    requires Ordered(h) && PagesTaken(h, m.vbits) && Agree(m)
    requires Inv(u) && u.arenas == h.arenas - {a}
    ensures Returnable(u, m, p, n)
  {
    ArenaSpan(h, m.vbits, a);
    TakenWithout(h, u, m.vbits, a, p, n);
    PresentIfTaken(m, p, n);
  }

  lemma ReleasedInv(h: HeapState, a: nat, c: nat)
    requires Ordered(h) && AllFree(h, a, c) && forall b :: b in h.arenas && b != a ==> !IsFull(h, b)
    ensures Inv(Released(h, a, c)) && PagesOf(h.arenas[a]) == 1 && Released(h, a, c).arenas == h.arenas - {a}
  {
    ReleaseKeeps(h, a, c);
    forall b | b in Released(h, a, c).arenas
      ensures !IsFull(Released(h, a, c), b)
    {
      assert !IsFull(h, b);
    }
  }

  lemma LargeFreed(h: HeapState, m: Memory, a: nat, p: int, n: nat)
    requires a in h.arenas && n == h.arenas[a].cnt && p == PageNo(a)
    requires Inv(h) && PagesTaken(h, m.vbits) && Agree(m) && a in h.arenas && h.arenas[a].desc == NoDesc
    ensures Returnable(WithoutLarge(h, a), m, p, n)
  {
    WithoutLargeInv(h, a);
    PagesBack(h, WithoutLarge(h, a), m, a, p, n);
  }

  /** An address handed out tells what kind of block it is. */
  lemma LiveKind(h: HeapState, x: nat)
    requires Ordered(h) && x in h.live
    ensures ArenaOf(x) in h.arenas
    ensures var r := h.arenas[ArenaOf(x)];
            if r.desc == NoDesc then r.large && x == ArenaOf(x) + 12 else !r.large && SmallLive(h, r.desc.c, x)
  {
    assert LiveOk(h, x) && ArenaOk(h, ArenaOf(x));
  }
}
