/** Semaphores and recursive locks over the scheduler, as atomic steps of the
    current thread: interrupts are off inside each of them. */
module Synchronization {
  import opened Options
  import opened Sequences
  import opened Scheduling

  type Sid = nat

  /** `init`, `ups` and `downs` record the semaphore's history. */
  datatype Sema = Sema(value: nat, waiters: seq<Tid>, init: nat, ups: nat, downs: nat)

  /** A lock and its semaphore share an identifier. */
  datatype Lock = Lock(holder: Option<Tid>, repeats: nat)

  /** `downing` maps each thread inside the loop of sema_down to its semaphore;
      `depth` counts each thread's unreleased acquisitions of each lock. */
  datatype System = System(cpu: Cpu, semas: map<Sid, Sema>, locks: map<Sid, Lock>,
                           downing: map<Tid, Sid>, depth: map<(Tid, Sid), nat>)

  function Depth(st: System, t: Tid, l: Sid): nat {
    if (t, l) in st.depth then st.depth[(t, l)] else 0
  }

  predicate InLoop(st: System, t: Tid, s: Sid) {
    t in st.downing && st.downing[t] == s
  }

  /** The threads popped from a semaphore's waiters that have not yet tested its
      value again. */
  function Awake(st: System, s: Sid): set<Tid>
    requires s in st.semas
  {
    set t | t in st.downing && st.downing[t] == s && t !in st.semas[s].waiters
  }

  predicate Asleep(s: Cpu, t: Tid) {
    t in s.threads && s.threads[t].status == Blocked
  }

  /** The value counts the ups and the completed downs, in its eight bits. */
  predicate Counts(m: Sema) {
    m.value < 256 && (m.value + m.downs) % 256 == (m.init + m.ups) % 256
  }

  /** A waiter is asleep in the loop of this very semaphore, and no wakeup is
      lost: while threads wait, every unit of the value has a thread that is on
      its way to test it. */
  ghost predicate SemaOk(st: System, s: Sid)
    requires s in st.semas
  {
    var m := st.semas[s];
    && Counts(m) && NoDup(m.waiters)
    && (forall t :: t in m.waiters ==> Asleep(st.cpu, t) && InLoop(st, t, s))
    && (m.waiters != [] ==> m.value <= |Awake(st, s)|)
  }

  /** The semaphore is 1 exactly when nobody holds the lock; the repeat count is
      the holder's nesting depth, and nobody else has any. */
  ghost predicate LockOk(st: System, l: Sid)
    requires l in st.locks && l in st.semas
  {
    var k := st.locks[l];
    && st.semas[l].value == (if k.holder == None then 1 else 0)
    && (k.holder == None <==> k.repeats == 0)
    && (forall t: Tid :: Depth(st, t, l) == if k.holder == Some(t) then k.repeats else 0)
    && (k.holder != None ==> !InLoop(st, k.holder.value, l))
  }

  ghost predicate LoopsOk(st: System) {
    forall t :: t in st.downing ==> t in st.cpu.threads && t != st.cpu.idle && st.downing[t] in st.semas
  }

  /** Everything but the locks. */
  ghost predicate SemasOk(st: System) {
    && Inv(st.cpu)
    && st.locks.Keys <= st.semas.Keys
    && LoopsOk(st)
    && (forall s :: s in st.semas ==> SemaOk(st, s))
  }

  ghost predicate LocksOk(st: System) {
    st.locks.Keys <= st.semas.Keys && forall l :: l in st.locks ==> LockOk(st, l)
  }

  ghost predicate Ok(st: System) {
    SemasOk(st) && LocksOk(st)
  }

  // ---------- The steps ----------

  function WithSema(st: System, s: Sid, m: Sema): System {
    st.(semas := st.semas[s := m])
  }

  /** A scheduler event that leads to `cpu`: a thread that is woken leaves
      whatever list it was on. */
  function Moved(st: System, e: Event, cpu: Cpu): System
    requires e.UnblockEvent? && e.t in st.downing ==> st.downing[e.t] in st.semas
  {
    var moved := st.(cpu := cpu);
    if e.UnblockEvent? && e.t in st.downing then
      var s := st.downing[e.t];
      WithSema(moved, s, st.semas[s].(waiters := Without(st.semas[s].waiters, e.t)))
    else moved
  }

  /** A thread off every list of waiters. */
  function Unlinked(semas: map<Sid, Sema>, t: Tid): map<Sid, Sema> {
    map s | s in semas :: semas[s].(waiters := Without(semas[s].waiters, t))
  }

  /** The current thread finds the value 0: it joins the waiters and sleeps. */
  function Joined(st: System, s: Sid, asleep: Cpu): System
    requires s in st.semas
  {
    var m, t := st.semas[s], st.cpu.cur;
    var w := if t in m.waiters then m.waiters else m.waiters + [t];
    WithSema(st, s, m.(waiters := w)).(downing := st.downing[t := s], cpu := asleep)
  }

  /** The current thread takes a unit and leaves the loop. */
  function Taken(st: System, s: Sid): System
    requires s in st.semas && st.semas[s].value > 0
  {
    var m := st.semas[s];
    WithSema(st, s, m.(value := m.value - 1, downs := m.downs + 1)).(downing := st.downing - {st.cpu.cur})
  }

  /** One test of sema_down's loop. */
  function Down(st: System, s: Sid): System
    requires Inv(st.cpu) && st.cpu.cur != st.cpu.idle && s in st.semas
  {
    if st.semas[s].value == 0 then Joined(st, s, Block(st.cpu, Blocked)) else Taken(st, s)
  }

  function Raised(st: System, s: Sid, woken: Cpu): System
    requires s in st.semas
  {
    var m := st.semas[s];
    WithSema(st, s, Sema((m.value + 1) % 256, if m.waiters == [] then [] else m.waiters[1..],
                         m.init, m.ups + 1, m.downs)).(cpu := woken)
  }

  /** sema_up.  The woken thread sleeps, as thread_unblock asserts. */
  function Up(st: System, s: Sid): System
    requires s in st.semas
    requires st.semas[s].waiters != [] ==> Sleeping(st.cpu, st.semas[s].waiters[0])
  {
    var w := st.semas[s].waiters;
    Raised(st, s, if w == [] then st.cpu else Unblock(st.cpu, w[0]))
  }

  /** The first waiter has left the list and is awake, if there was one. */
  ghost predicate PoppedWoken(st: System, s: Sid, woken: Cpu, popped: map<Sid, Sema>) {
    && s in st.semas
    && var w := st.semas[s].waiters;
       if w == [] then woken == st.cpu && popped == st.semas
       else
         && Sleeping(st.cpu, w[0]) && woken == Unblock(st.cpu, w[0])
         && popped == st.semas[s := st.semas[s].(waiters := w[1..])]
  }

  /** sema_up in its two halves: the wake-up, then the count. */
  lemma UpIs(st: System, s: Sid, woken: Cpu, popped: map<Sid, Sema>)
    requires PoppedWoken(st, s, woken, popped)
    ensures s in popped && s in st.semas
    ensures st.semas[s].waiters != [] ==> Sleeping(st.cpu, st.semas[s].waiters[0])
    ensures Up(st, s) ==
            st.(cpu := woken, semas := popped[s := popped[s].(value := (popped[s].value + 1) % 256, ups := popped[s].ups + 1)])
  {
    var u := popped[s := popped[s].(value := (popped[s].value + 1) % 256, ups := popped[s].ups + 1)];
    assert u == Up(st, s).semas;
  }

  function Nested(st: System, l: Sid): System
    requires l in st.locks
  {
    var k, t := st.locks[l], st.cpu.cur;
    st.(locks := st.locks[l := k.(repeats := k.repeats + 1)], depth := st.depth[(t, l) := Depth(st, t, l) + 1])
  }

  function Owned(st: System, l: Sid): System {
    var t := st.cpu.cur;
    st.(locks := st.locks[l := Lock(Some(t), 1)], depth := st.depth[(t, l) := Depth(st, t, l) + 1])
  }

  /** lock_acquire: nest, or go once round the loop of its semaphore and, with
      the unit taken, become the holder. */
  function Acquire(st: System, l: Sid): System
    requires Inv(st.cpu) && st.cpu.cur != st.cpu.idle && l in st.locks && l in st.semas
  {
    if st.locks[l].holder == Some(st.cpu.cur) then Nested(st, l)
    else if st.semas[l].value == 0 then Down(st, l)
    else Owned(Down(st, l), l)
  }

  function Disowned(st: System, l: Sid, k: Lock): System
    requires Depth(st, st.cpu.cur, l) > 0
  {
    var t := st.cpu.cur;
    st.(locks := st.locks[l := k], depth := st.depth[(t, l) := Depth(st, t, l) - 1])
  }

  function Release(st: System, l: Sid): System
    requires l in st.locks && l in st.semas && Depth(st, st.cpu.cur, l) > 0
    requires st.semas[l].waiters != [] ==> Sleeping(st.cpu, st.semas[l].waiters[0])
  {
    var k := st.locks[l];
    if k.repeats > 1 then Disowned(st, l, k.(repeats := k.repeats - 1))
    else Up(Disowned(st, l, Lock(None, 0)), l)
  }

  // ---------- What a change of the processor does to sleepers ----------

  /** From `c` to `d` no thread is lost, and only `woken` wakes. */
  ghost predicate After(c: Cpu, d: Cpu, woken: Option<Tid>) {
    && Inv(d) && d.idle == c.idle
    && c.threads.Keys <= d.threads.Keys
    && (forall t: Tid :: Asleep(c, t) && woken != Some(t) ==> Asleep(d, t))
  }

  function Wakes(e: Event): Option<Tid> {
    if e.UnblockEvent? then Some(e.t) else None
  }

  lemma NextAfter(s: Cpu, e: Event)
    requires Inv(s) && Enabled(s, e)
    ensures After(s, Next(s, e), Wakes(e))
  {
    NextKeeps(s, e);
    NextThreads(s, e);
    forall t: Tid | Asleep(s, t) && Wakes(e) != Some(t)
      ensures Asleep(Next(s, e), t)
    {
      BlockedStays(s, e, t);
    }
  }

  /** The thread that blocks is asleep itself. */
  lemma BlockAfter(s: Cpu)
    requires Inv(s) && s.cur != s.idle
    ensures After(s, Block(s, Blocked), None) && Asleep(Block(s, Blocked), s.cur)
  {
    NextAfter(s, BlockEvent(Blocked));
    var u := With(s, s.cur, s.threads[s.cur].(status := Blocked));
    BlockedKeeps(s, s.threads[s.cur].(status := Blocked));
    ScheduleSleepers(u, s.cur);
  }

  lemma WaiterSleeps(st: System, s: Sid)
    requires SemasOk(st) && s in st.semas
    ensures st.semas[s].waiters != [] ==>
              var t := st.semas[s].waiters[0];
              Sleeping(st.cpu, t) && t != st.cpu.idle && t != st.cpu.cur
  {
    assert SemaOk(st, s);
    if st.semas[s].waiters != [] {
      assert st.semas[s].waiters[0] in st.semas[s].waiters;
    }
  }

  /** A thread can only be on the list of the semaphore it waits for. */
  lemma UnlinkedMoves(st: System, t: Tid)
    requires SemasOk(st)
    ensures t in st.downing ==> st.downing[t] in st.semas
    ensures forall cpu: Cpu :: Moved(st, UnblockEvent(t), cpu) == st.(cpu := cpu, semas := Unlinked(st.semas, t))
  {
    UnlinkedIs(st, t);
  }

  lemma UnlinkedIs(st: System, t: Tid)
    requires SemasOk(st)
    ensures t !in st.downing ==> Unlinked(st.semas, t) == st.semas
    ensures t in st.downing ==>
              var s := st.downing[t];
              s in st.semas && Unlinked(st.semas, t) == st.semas[s := st.semas[s].(waiters := Without(st.semas[s].waiters, t))]
  {
    forall s | s in st.semas && !InLoop(st, t, s)
      ensures t !in st.semas[s].waiters
    {
      assert SemaOk(st, s);
    }
    if t in st.downing {
      UnlinkedBut(st.semas, t, st.downing[t]);
    } else {
      UnlinkedNowhere(st.semas, t);
    }
  }

  lemma UnlinkedNowhere(semas: map<Sid, Sema>, t: Tid)
    requires forall x :: x in semas ==> t !in semas[x].waiters
    ensures Unlinked(semas, t) == semas
  {
    forall x | x in semas
      ensures Unlinked(semas, t)[x] == semas[x]
    {
      WithoutNone(semas[x].waiters, t);
    }
  }

  lemma UnlinkedBut(semas: map<Sid, Sema>, t: Tid, s: Sid)
    requires s in semas && forall x :: x in semas && x != s ==> t !in semas[x].waiters
    ensures Unlinked(semas, t) == semas[s := semas[s].(waiters := Without(semas[s].waiters, t))]
  {
    forall x | x in semas && x != s
      ensures Unlinked(semas, t)[x] == semas[x]
    {
      WithoutNone(semas[x].waiters, t);
    }
  }

  /** A waiter that has been popped is on no list any more. */
  lemma PoppedUnlinked(st: System, s: Sid)
    requires SemasOk(st) && s in st.semas && st.semas[s].waiters != []
    ensures var m := st.semas[s];
            var popped := st.semas[s := m.(waiters := m.waiters[1..])];
            Unlinked(popped, m.waiters[0]) == popped
  {
    var m := st.semas[s];
    var t := m.waiters[0];
    var popped := st.semas[s := m.(waiters := m.waiters[1..])];
    assert SemaOk(st, s) && t in m.waiters;
    PopMember(m.waiters);
    forall r | r in popped
      ensures t !in popped[r].waiters
    {
      assert SemaOk(st, r);
    }
    UnlinkedNowhere(popped, t);
  }

  lemma UnblockAfter(s: Cpu, t: Tid)
    requires Inv(s) && Sleeping(s, t) && t != s.idle && t != s.cur
    ensures After(s, Unblock(s, t), Some(t)) && Unblock(s, t).cur == s.cur
  {
    NextAfter(s, UnblockEvent(t));
  }

  // ---------- What each step keeps ----------

  /** A step that touches neither a semaphore nor its loop keeps it in order. */
  lemma SemaUntouched(st: System, u: System, s: Sid)
    requires s in st.semas && SemaOk(st, s) && s in u.semas && u.semas[s] == st.semas[s]
    requires forall t :: InLoop(st, t, s) <==> InLoop(u, t, s)
    requires forall t :: t in st.semas[s].waiters && Asleep(st.cpu, t) ==> Asleep(u.cpu, t)
    ensures SemaOk(u, s)
  {
    assert Awake(u, s) == Awake(st, s) by {
      forall t
        ensures t in Awake(u, s) <==> t in Awake(st, s)
      {
        assert InLoop(st, t, s) <==> InLoop(u, t, s);
      }
    }
  }

  /** A step that leaves locks, depths and the locks' values alone, and takes
      no holder into the loop of its lock, keeps every lock in order. */
  lemma LocksUntouched(st: System, u: System)
    requires u.locks == st.locks && u.depth == st.depth && st.locks.Keys <= st.semas.Keys <= u.semas.Keys
    requires forall l :: l in st.locks ==> LockOk(st, l) && u.semas[l].value == st.semas[l].value
    requires forall t: Tid, l: Sid :: l in st.locks && InLoop(u, t, l) ==>
               InLoop(st, t, l) || st.locks[l].holder != Some(t)
    ensures forall l :: l in u.locks ==> LockOk(u, l)
  {
    forall l | l in u.locks
      ensures LockOk(u, l)
    {
      assert LockOk(st, l);
      assert forall t: Tid :: Depth(u, t, l) == Depth(st, t, l);
    }
  }

  /** Taking a thread off a semaphore's waiters adds it to those that will test
      the value again. */
  lemma WakeKeepsSema(st: System, u: System, s: Sid, t: Tid)
    requires s in st.semas && SemaOk(st, s) && s in u.semas
    requires u.semas[s] == st.semas[s].(waiters := Without(st.semas[s].waiters, t)) && u.downing == st.downing
    requires After(st.cpu, u.cpu, Some(t))
    ensures SemaOk(u, s)
  {
    assert Awake(st, s) <= Awake(u, s);
    SubsetSize(Awake(st, s), Awake(u, s));
    if u.semas[s].waiters != [] {
      assert u.semas[s].waiters[0] in u.semas[s].waiters;
    }
  }

  lemma MovedKeepsSema(st: System, e: Event, cpu: Cpu, s: Sid)
    requires Ok(st) && After(st.cpu, cpu, Wakes(e)) && s in st.semas
    ensures SemaOk(Moved(st, e, cpu), s)
  {
    var u := Moved(st, e, cpu);
    assert SemaOk(st, s);
    if e.UnblockEvent? && InLoop(st, e.t, s) {
      WakeKeepsSema(st, u, s, e.t);
    } else {
      SemaUntouched(st, u, s);
    }
  }

  lemma MovedKeepsSemas(st: System, e: Event, cpu: Cpu)
    requires Ok(st) && After(st.cpu, cpu, Wakes(e))
    ensures SemasOk(Moved(st, e, cpu))
  {
    forall s | s in st.semas
      ensures SemaOk(Moved(st, e, cpu), s)
    {
      MovedKeepsSema(st, e, cpu, s);
    }
  }

  lemma MovedKeeps(st: System, e: Event, cpu: Cpu)
    requires Ok(st) && After(st.cpu, cpu, Wakes(e))
    ensures Ok(Moved(st, e, cpu))
  {
    MovedKeepsSemas(st, e, cpu);
    MovedLocks(st, e, cpu);
  }

  lemma MovedLocks(st: System, e: Event, cpu: Cpu)
    requires LocksOk(st) && LoopsOk(st)
    ensures LocksOk(Moved(st, e, cpu))
  {
    LocksUntouched(st, Moved(st, e, cpu));
  }

  lemma JoinedKeepsSema(st: System, s: Sid, asleep: Cpu, x: Sid)
    requires Ok(st) && s in st.semas && st.semas[s].value == 0 && x in st.semas
    requires st.cpu.cur in st.downing ==> st.downing[st.cpu.cur] == s
    requires After(st.cpu, asleep, None) && Asleep(asleep, st.cpu.cur)
    ensures SemaOk(Joined(st, s, asleep), x)
  {
    var u := Joined(st, s, asleep);
    assert SemaOk(st, x);
    if x != s {
      SemaUntouched(st, u, x);
    } else {
      JoinedWaits(st, s, asleep);
    }
  }

  lemma JoinedWaits(st: System, s: Sid, asleep: Cpu)
    requires Ok(st) && s in st.semas && st.semas[s].value == 0
    requires st.cpu.cur in st.downing ==> st.downing[st.cpu.cur] == s
    requires After(st.cpu, asleep, None) && Asleep(asleep, st.cpu.cur)
    ensures SemaOk(Joined(st, s, asleep), s)
  {
    assert SemaOk(st, s);
    assert st.cpu.cur !in st.semas[s].waiters;
    AppendMember(st.semas[s].waiters, st.cpu.cur);
  }

  lemma TakenCounts(m: Sema, n: Sema)
    requires Counts(m) && m.value > 0 && n.value == m.value - 1
    requires n.init == m.init && n.ups == m.ups && n.downs == m.downs + 1
    ensures Counts(n)
  {}

  /** A thread that takes a unit is no longer one of those that were to test it. */
  lemma TakenAwake(st: System, s: Sid)
    requires s in st.semas && st.semas[s].value > 0 && st.cpu.cur !in st.semas[s].waiters
    ensures Awake(Taken(st, s), s) == Awake(st, s) - {st.cpu.cur}
  {}

  lemma TakenKeepsOwn(st: System, s: Sid)
    requires SemasOk(st) && s in st.semas && st.semas[s].value > 0
    requires st.cpu.cur in st.downing ==> st.downing[st.cpu.cur] == s
    ensures SemaOk(Taken(st, s), s)
  {
    assert SemaOk(st, s);
    TakenAwake(st, s);
    TakenCounts(st.semas[s], Taken(st, s).semas[s]);
  }

  lemma TakenKeepsSema(st: System, s: Sid, x: Sid)
    requires SemasOk(st) && s in st.semas && st.semas[s].value > 0 && x in st.semas
    requires st.cpu.cur in st.downing ==> st.downing[st.cpu.cur] == s
    ensures SemaOk(Taken(st, s), x)
  {
    if x != s {
      SemaUntouched(st, Taken(st, s), x);
    } else {
      TakenKeepsOwn(st, s);
    }
  }

  lemma JoinedKeepsSemas(st: System, s: Sid, asleep: Cpu)
    requires Ok(st) && st.cpu.cur != st.cpu.idle && s in st.semas && st.semas[s].value == 0
    requires st.cpu.cur in st.downing ==> st.downing[st.cpu.cur] == s
    requires After(st.cpu, asleep, None) && Asleep(asleep, st.cpu.cur)
    ensures SemasOk(Joined(st, s, asleep))
  {
    forall x | x in st.semas
      ensures SemaOk(Joined(st, s, asleep), x)
    {
      JoinedKeepsSema(st, s, asleep, x);
    }
  }

  /** To wait for a semaphore keeps everything, unless the thread holds the lock
      it would wait for. */
  lemma JoinedKeeps(st: System, s: Sid, asleep: Cpu)
    requires Ok(st) && st.cpu.cur != st.cpu.idle && s in st.semas && st.semas[s].value == 0
    requires st.cpu.cur in st.downing ==> st.downing[st.cpu.cur] == s
    requires s in st.locks ==> st.locks[s].holder != Some(st.cpu.cur)
    requires After(st.cpu, asleep, None) && Asleep(asleep, st.cpu.cur)
    ensures Ok(Joined(st, s, asleep))
  {
    JoinedKeepsSemas(st, s, asleep);
    JoinedLocks(st, s, asleep);
  }

  lemma JoinedLocks(st: System, s: Sid, asleep: Cpu)
    requires LocksOk(st) && s in st.semas && (s in st.locks ==> st.locks[s].holder != Some(st.cpu.cur))
    ensures LocksOk(Joined(st, s, asleep))
  {
    LocksUntouched(st, Joined(st, s, asleep));
  }

  /** sema_down on a semaphore that is no lock's. */
  lemma DownKeeps(st: System, s: Sid)
    requires Ok(st) && st.cpu.cur != st.cpu.idle && s in st.semas && s !in st.locks
    requires st.cpu.cur in st.downing ==> st.downing[st.cpu.cur] == s
    ensures Ok(Down(st, s))
  {
    if st.semas[s].value == 0 {
      BlockAfter(st.cpu);
      JoinedKeeps(st, s, Block(st.cpu, Blocked));
    } else {
      TakenKeeps(st, s);
      LocksUntouched(st, Taken(st, s));
    }
  }

  lemma TakenKeeps(st: System, s: Sid)
    requires SemasOk(st) && s in st.semas && st.semas[s].value > 0
    requires st.cpu.cur in st.downing ==> st.downing[st.cpu.cur] == s
    ensures SemasOk(Taken(st, s))
  {
    forall x | x in st.semas
      ensures SemaOk(Taken(st, s), x)
    {
      TakenKeepsSema(st, s, x);
    }
  }

  /** One up, in eight bits. */
  lemma RaisedCounts(m: Sema, n: Sema)
    requires Counts(m) && n.value == (m.value + 1) % 256
    requires n.init == m.init && n.ups == m.ups + 1 && n.downs == m.downs
    ensures Counts(n) && n.value <= m.value + 1
  {
    NextUp(m.value + m.downs, m.init + m.ups);
    if m.value == 255 {
      FullTurn(n.value + n.downs);
    }
  }

  lemma NextUp(a: nat, b: nat)
    requires a % 256 == b % 256
    ensures (a + 1) % 256 == (b + 1) % 256
  {
    NextOf(a);
    NextOf(b);
  }

  lemma NextOf(a: nat)
    ensures (a + 1) % 256 == if a % 256 == 255 then 0 else a % 256 + 1
  {
    var q, r := a / 256, a % 256;
    assert a + 1 == 256 * q + (r + 1);
  }

  lemma FullTurn(a: nat)
    ensures (a + 256) % 256 == a % 256
  {}

  lemma RaisedKeepsSema(st: System, s: Sid, woken: Cpu, x: Sid)
    requires SemasOk(st) && s in st.semas && x in st.semas
    requires var w := st.semas[s].waiters;
             if w == [] then woken == st.cpu else After(st.cpu, woken, Some(w[0]))
    ensures SemaOk(Raised(st, s, woken), x)
  {
    var u, w := Raised(st, s, woken), st.semas[s].waiters;
    assert SemaOk(st, x) && SemaOk(st, s);
    if w != [] { assert w[0] in w; }
    if x != s {
      SemaUntouched(st, u, x);
    } else {
      RaisedCounts(st.semas[s], u.semas[s]);
      if w != [] {
        PopMember(w);
        assert Awake(u, s) == Awake(st, s) + {w[0]};
      }
    }
  }

  lemma RaisedKeeps(st: System, s: Sid, woken: Cpu)
    requires SemasOk(st) && s in st.semas
    requires var w := st.semas[s].waiters;
             if w == [] then woken == st.cpu else After(st.cpu, woken, Some(w[0]))
    ensures SemasOk(Raised(st, s, woken))
  {
    forall x | x in st.semas
      ensures SemaOk(Raised(st, s, woken), x)
    {
      RaisedKeepsSema(st, s, woken, x);
    }
  }

  /** sema_up on a semaphore that is no lock's. */
  lemma UpKeeps(st: System, s: Sid)
    requires Ok(st) && s in st.semas && s !in st.locks
    ensures st.semas[s].waiters != [] ==> Sleeping(st.cpu, st.semas[s].waiters[0])
    ensures Ok(Up(st, s)) && Up(st, s).cpu.cur == st.cpu.cur && Up(st, s).cpu.idle == st.cpu.idle
  {
    var woken := UpWakes(st, s);
    RaisedKeeps(st, s, woken);
    LocksUntouched(st, Raised(st, s, woken));
  }

  lemma UpWakes(st: System, s: Sid) returns (woken: Cpu)
    requires SemasOk(st) && s in st.semas
    ensures st.semas[s].waiters != [] ==> Sleeping(st.cpu, st.semas[s].waiters[0])
    ensures Up(st, s) == Raised(st, s, woken) && woken.cur == st.cpu.cur && woken.idle == st.cpu.idle
    ensures var w := st.semas[s].waiters;
            if w == [] then woken == st.cpu else After(st.cpu, woken, Some(w[0]))
  {
    WaiterSleeps(st, s);
    var w := st.semas[s].waiters;
    if w == [] {
      woken := st.cpu;
    } else {
      UnblockAfter(st.cpu, w[0]);
      woken := Unblock(st.cpu, w[0]);
    }
  }

  lemma SemasUntouched(st: System, u: System)
    requires SemasOk(st)
    requires u.cpu == st.cpu && u.semas == st.semas && u.downing == st.downing && u.locks.Keys <= u.semas.Keys
    ensures SemasOk(u)
  {
    forall s | s in u.semas
      ensures SemaOk(u, s)
    {
      SemaUntouched(st, u, s);
    }
  }

  /** A step that settles one lock leaves the others in order. */
  lemma OtherLocks(st: System, u: System, l: Sid)
    requires u.locks.Keys == st.locks.Keys && st.locks.Keys <= st.semas.Keys <= u.semas.Keys
    requires forall x :: x in st.locks ==> LockOk(st, x)
    requires l in u.locks ==> LockOk(u, l)
    requires forall x :: x in st.locks && x != l ==> u.locks[x] == st.locks[x] && u.semas[x].value == st.semas[x].value
    requires forall t: Tid, x: Sid :: x != l ==> Depth(u, t, x) == Depth(st, t, x)
    requires forall t: Tid, x: Sid :: x != l && InLoop(u, t, x) ==> InLoop(st, t, x)
    ensures forall x :: x in u.locks ==> LockOk(u, x)
  {
    forall x | x in u.locks
      ensures LockOk(u, x)
    {
      if x != l { assert LockOk(st, x); }
    }
  }

  lemma NestedKeeps(st: System, l: Sid)
    requires Ok(st) && l in st.locks && st.locks[l].holder == Some(st.cpu.cur)
    ensures Ok(Nested(st, l))
  {
    assert LockOk(st, l);
    SemasUntouched(st, Nested(st, l));
    NestedLocks(st, l);
  }

  lemma NestedLocks(st: System, l: Sid)
    requires LocksOk(st) && l in st.locks && st.locks[l].holder == Some(st.cpu.cur)
    ensures LocksOk(Nested(st, l))
  {
    assert LockOk(st, l);
    OtherLocks(st, Nested(st, l), l);
  }

  lemma OwnedKeepsLock(st: System, l: Sid)
    requires l in st.locks && l in st.semas && LockOk(st, l) && st.semas[l].value > 0
    ensures LockOk(Owned(Taken(st, l), l), l)
  {}

  lemma OwnedKeeps(st: System, l: Sid)
    requires Ok(st) && l in st.locks && st.semas[l].value > 0
    requires st.cpu.cur in st.downing ==> st.downing[st.cpu.cur] == l
    ensures Ok(Owned(Taken(st, l), l))
  {
    TakenKeeps(st, l);
    SemasUntouched(Taken(st, l), Owned(Taken(st, l), l));
    OwnedLocks(st, l);
  }

  lemma OwnedLocks(st: System, l: Sid)
    requires LocksOk(st) && l in st.locks && st.semas[l].value > 0
    ensures LocksOk(Owned(Taken(st, l), l))
  {
    OwnedKeepsLock(st, l);
    OtherLocks(st, Owned(Taken(st, l), l), l);
  }

  /** lock_acquire, on its first test of the semaphore or a later one. */
  lemma AcquireKeeps(st: System, l: Sid)
    requires Ok(st) && st.cpu.cur != st.cpu.idle && l in st.locks
    requires st.cpu.cur in st.downing ==> st.downing[st.cpu.cur] == l
    ensures Ok(Acquire(st, l))
  {
    if st.locks[l].holder == Some(st.cpu.cur) {
      NestedKeeps(st, l);
    } else if st.semas[l].value == 0 {
      BlockAfter(st.cpu);
      JoinedKeeps(st, l, Block(st.cpu, Blocked));
    } else {
      OwnedKeeps(st, l);
    }
  }

  lemma NestedReleaseKeeps(st: System, l: Sid, k: Lock)
    requires Ok(st) && l in st.locks && Depth(st, st.cpu.cur, l) > 0 && st.locks[l].repeats > 1
    requires k == st.locks[l].(repeats := st.locks[l].repeats - 1)
    ensures Ok(Disowned(st, l, k))
  {
    SemasUntouched(st, Disowned(st, l, k));
    DisownedLocks(st, l, k);
  }

  lemma DisownedLocks(st: System, l: Sid, k: Lock)
    requires LocksOk(st) && l in st.locks && Depth(st, st.cpu.cur, l) > 0 && st.locks[l].repeats > 1
    requires k == st.locks[l].(repeats := st.locks[l].repeats - 1)
    ensures LocksOk(Disowned(st, l, k))
  {
    assert LockOk(st, l);
    OtherLocks(st, Disowned(st, l, k), l);
  }

  lemma FreedKeepsLock(st: System, l: Sid, woken: Cpu)
    requires l in st.locks && l in st.semas && LockOk(st, l) && Depth(st, st.cpu.cur, l) > 0 && st.locks[l].repeats <= 1
    ensures LockOk(Raised(Disowned(st, l, Lock(None, 0)), l, woken), l)
  {}

  lemma LastReleaseKeeps(st: System, l: Sid)
    requires Ok(st) && l in st.locks && Depth(st, st.cpu.cur, l) > 0 && st.locks[l].repeats <= 1
    ensures st.semas[l].waiters != [] ==> Sleeping(st.cpu, st.semas[l].waiters[0])
    ensures Ok(Up(Disowned(st, l, Lock(None, 0)), l))
  {
    var d := Disowned(st, l, Lock(None, 0));
    SemasUntouched(st, d);
    var woken := UpWakes(d, l);
    RaisedKeeps(d, l, woken);
    FreedLocks(st, l, woken);
  }

  lemma FreedLocks(st: System, l: Sid, woken: Cpu)
    requires LocksOk(st) && l in st.locks && Depth(st, st.cpu.cur, l) > 0 && st.locks[l].repeats <= 1
    ensures LocksOk(Raised(Disowned(st, l, Lock(None, 0)), l, woken))
  {
    FreedKeepsLock(st, l, woken);
    OtherLocks(st, Raised(Disowned(st, l, Lock(None, 0)), l, woken), l);
  }

  lemma ReleaseKeeps(st: System, l: Sid)
    requires Ok(st) && l in st.locks && Depth(st, st.cpu.cur, l) > 0
    ensures st.semas[l].waiters != [] ==> Sleeping(st.cpu, st.semas[l].waiters[0])
    ensures Ok(Release(st, l))
  {
    var k := st.locks[l];
    if k.repeats > 1 {
      WaiterSleeps(st, l);
      NestedReleaseKeeps(st, l, k.(repeats := k.repeats - 1));
    } else {
      LastReleaseKeeps(st, l);
    }
  }

  /** The ASSERTs of lock_acquire and lock_release: a lock that is taken has
      repeat count 0; a lock that is released belongs to the releaser, and
      when it is given up its repeat count is 1. */
  lemma LockAsserts(st: System, l: Sid)
    requires Ok(st) && l in st.locks
    ensures st.locks[l].holder != Some(st.cpu.cur) && st.semas[l].value > 0 ==> st.locks[l].repeats == 0
    ensures Depth(st, st.cpu.cur, l) > 0 <==> st.locks[l].holder == Some(st.cpu.cur)
    ensures Depth(st, st.cpu.cur, l) > 0 && !(st.locks[l].repeats > 1) ==> st.locks[l].repeats == 1
  {
    assert LockOk(st, l);
  }

  // ---------- Runs ----------

  datatype Step =
    | Sched(e: Event)
    | InitSema(s: Sid, value: nat)
    | InitLock(s: Sid)
    | SemaDown(s: Sid)
    | SemaUp(s: Sid)
    | LockAcquire(s: Sid)
    | LockRelease(s: Sid)
    | ThreadExit(parent: Option<Sid>)

  /** A thread popped from a semaphore's waiters does nothing before it has
      tested the value again; the idle thread takes no semaphore; a lock's
      semaphore is used through the lock only; a lock is released by a thread
      that has acquired it. */
  predicate Can(st: System, a: Step)
    requires st.cpu.cur in st.cpu.threads
  {
    var t := st.cpu.cur;
    match a
    case SemaDown(s) => t != st.cpu.idle && s in st.semas && s !in st.locks && (t in st.downing ==> st.downing[t] == s)
    case LockAcquire(l) => t != st.cpu.idle && l in st.locks && (t in st.downing ==> st.downing[t] == l)
    case _ =>
      && t !in st.downing
      && match a
         case Sched(e) => Enabled(st.cpu, e) && e != ExitEvent
         case InitSema(s, v) => s !in st.semas && v < 256
         case InitLock(l) => l !in st.semas
         case SemaUp(s) => s in st.semas && s !in st.locks
         case LockRelease(l) => l in st.locks && Depth(st, t, l) > 0
         case ThreadExit(parent) =>
           t != st.cpu.idle && (parent.Some? ==> parent.value in st.semas && parent.value !in st.locks)
  }

  function NewSema(st: System, s: Sid, v: nat): System {
    WithSema(st, s, Sema(v, [], v, 0, 0))
  }

  /** Nobody has had a lock before it is made. */
  function NewLock(st: System, l: Sid): System {
    NewSema(st, l, 1).(locks := st.locks[l := Lock(None, 0)], depth := map k | k in st.depth && k.1 != l :: st.depth[k])
  }

  /** thread_exit: wake the parent that waits for its child, then die. */
  function Die(st: System, parent: Option<Sid>): System
    requires Ok(st) && st.cpu.cur != st.cpu.idle
    requires parent.Some? ==> parent.value in st.semas && parent.value !in st.locks
  {
    if parent.Some? then
      UpKeeps(st, parent.value);
      Moved(Up(st, parent.value), ExitEvent, Exit(Up(st, parent.value).cpu))
    else Moved(st, ExitEvent, Exit(st.cpu))
  }

  function Do(st: System, a: Step): System
    requires Ok(st) && Can(st, a)
  {
    match a
    case Sched(e) => Moved(st, e, Next(st.cpu, e))
    case InitSema(s, v) => NewSema(st, s, v)
    case InitLock(l) => NewLock(st, l)
    case SemaDown(s) => Down(st, s)
    case SemaUp(s) => WaiterSleeps(st, s); Up(st, s)
    case LockAcquire(l) => Acquire(st, l)
    case LockRelease(l) => WaiterSleeps(st, l); Release(st, l)
    case ThreadExit(parent) => Die(st, parent)
  }

  lemma ExitMovedKeeps(st: System)
    requires Ok(st) && st.cpu.cur != st.cpu.idle
    ensures Ok(Moved(st, ExitEvent, Exit(st.cpu)))
  {
    NextAfter(st.cpu, ExitEvent);
    MovedKeeps(st, ExitEvent, Next(st.cpu, ExitEvent));
  }

  lemma DieKeeps(st: System, parent: Option<Sid>)
    requires Ok(st) && st.cpu.cur != st.cpu.idle
    requires parent.Some? ==> parent.value in st.semas && parent.value !in st.locks
    ensures Ok(Die(st, parent))
  {
    if parent.Some? {
      UpKeeps(st, parent.value);
      ExitMovedKeeps(Up(st, parent.value));
    } else {
      ExitMovedKeeps(st);
    }
  }

  lemma NewSemaKeeps(st: System, s: Sid, v: nat)
    requires Ok(st) && s !in st.semas && v < 256
    ensures Ok(NewSema(st, s, v))
  {
    var u := NewSema(st, s, v);
    forall x | x in u.semas
      ensures SemaOk(u, x)
    {
      if x != s { SemaUntouched(st, u, x); }
    }
    LocksUntouched(st, u);
  }

  lemma NewLockKeeps(st: System, l: Sid)
    requires Ok(st) && l !in st.semas
    ensures Ok(NewLock(st, l))
  {
    NewSemaKeeps(st, l, 1);
    SemasUntouched(NewSema(st, l, 1), NewLock(st, l));
    NewLockLocks(st, l);
  }

  lemma NewLockLocks(st: System, l: Sid)
    requires LocksOk(st) && LoopsOk(st) && l !in st.semas
    ensures LocksOk(NewLock(st, l))
  {
    var u := NewLock(st, l);
    forall t: Tid, x: Sid
      ensures Depth(u, t, x) == if x == l then 0 else Depth(st, t, x)
    {}
    forall x | x in u.locks
      ensures LockOk(u, x)
    {
      if x != l { assert LockOk(st, x); }
    }
  }

  /** Every step of every thread keeps the semaphores and the locks in order. */
  lemma DoKeeps(st: System, a: Step)
    requires Ok(st) && Can(st, a)
    ensures Ok(Do(st, a))
  {
    match a
    case Sched(e) =>
      NextAfter(st.cpu, e);
      MovedKeeps(st, e, Next(st.cpu, e));
    case InitSema(s, v) => NewSemaKeeps(st, s, v);
    case InitLock(l) => NewLockKeeps(st, l);
    case SemaDown(s) => DownKeeps(st, s);
    case SemaUp(s) => UpKeeps(st, s);
    case LockAcquire(l) => AcquireKeeps(st, l);
    case LockRelease(l) => ReleaseKeeps(st, l);
    case ThreadExit(parent) => DieKeeps(st, parent);
  }

  /** The steps of all threads, in the order the processor runs them. */
  predicate Feasible(st: System, steps: seq<Step>)
    requires Ok(st)
    decreases steps
  {
    steps == [] || (Can(st, steps[0]) && (DoKeeps(st, steps[0]); Feasible(Do(st, steps[0]), steps[1..])))
  }

  function Interleaved(st: System, steps: seq<Step>): System
    requires Ok(st) && Feasible(st, steps)
    decreases steps
  {
    if steps == [] then st else DoKeeps(st, steps[0]); Interleaved(Do(st, steps[0]), steps[1..])
  }

  lemma {:induction false} InterleavedKeeps(st: System, steps: seq<Step>)
    requires Ok(st) && Feasible(st, steps)
    ensures Ok(Interleaved(st, steps))
    decreases steps
  {
    if steps != [] {
      DoKeeps(st, steps[0]);
      InterleavedKeeps(Do(st, steps[0]), steps[1..]);
    }
  }

  /** The state thread_init leaves: the main thread runs, the idle thread is
      ready, and there is no semaphore yet. */
  function Booted(main: Tid, idle: Tid): System {
    var threads := map[main := Thread(Running, FIRST_PRIO, FIRST_PRIO), idle := Thread(Ready, THIRD_PRIO, THIRD_PRIO)];
    System(Cpu(threads, [], [], [idle], main, idle), map[], map[], map[], map[])
  }

  lemma BootedOk(main: Tid, idle: Tid)
    requires main != idle
    ensures Ok(Booted(main, idle))
    ensures var s := Booted(main, idle).cpu;
            && s.cur == main && s.idle == idle && s.first == s.second == [] && s.third == [idle]
            && s.threads == map[main := Thread(Running, 30, 30), idle := Thread(Ready, 10, 10)]
  {
    var s := Booted(main, idle).cpu;
    assert forall t :: t in s.third <==> t == idle;
  }

  predicate FeasibleFromBoot(main: Tid, idle: Tid, steps: seq<Step>)
    requires main != idle
  {
    BootedOk(main, idle);
    Feasible(Booted(main, idle), steps)
  }

  function FromBoot(main: Tid, idle: Tid, steps: seq<Step>): (st: System)
    requires main != idle && FeasibleFromBoot(main, idle, steps)
    ensures Ok(st)
  {
    BootedOk(main, idle);
    InterleavedKeeps(Booted(main, idle), steps);
    Interleaved(Booted(main, idle), steps)
  }

  /** No lost wakeup: over every interleaving from boot, while threads wait for
      a semaphore, its value is at most the number of threads that have been
      popped and are still to test it, so that when none is, the value is 0;
      and each waiter sleeps on that semaphore alone. */
  lemma NoLostWakeup(main: Tid, idle: Tid, steps: seq<Step>, s: Sid)
    requires main != idle && FeasibleFromBoot(main, idle, steps)
    requires s in FromBoot(main, idle, steps).semas
    ensures var st := FromBoot(main, idle, steps);
            && (st.semas[s].waiters != [] ==> st.semas[s].value <= |Awake(st, s)|)
            && (forall t, x :: t in st.semas[s].waiters && x in st.semas && t in st.semas[x].waiters ==> x == s)
            && (forall t :: t in st.semas[s].waiters ==> Asleep(st.cpu, t))
  {
    var st := FromBoot(main, idle, steps);
    assert SemaOk(st, s);
    forall t, x | t in st.semas[s].waiters && x in st.semas && t in st.semas[x].waiters
      ensures x == s
    {
      assert SemaOk(st, x);
      assert InLoop(st, t, x) && InLoop(st, t, s);
    }
  }

  /** Over every interleaving from boot the value is the initial one plus the
      ups minus the completed downs, in the eight bits it has. */
  lemma ValueCounts(main: Tid, idle: Tid, steps: seq<Step>, s: Sid)
    requires main != idle && FeasibleFromBoot(main, idle, steps)
    requires s in FromBoot(main, idle, steps).semas
    ensures var m := FromBoot(main, idle, steps).semas[s];
            m.value < 256 && (m.value + m.downs) % 256 == (m.init + m.ups) % 256
  {
    assert SemaOk(FromBoot(main, idle, steps), s);
  }

  /** Mutual exclusion over every interleaving from boot: at most one thread has
      acquired a lock more often than released it, it is the recorded holder,
      and the repeat count is by how much. */
  lemma MutualExclusion(main: Tid, idle: Tid, steps: seq<Step>, l: Sid, a: Tid, b: Tid)
    requires main != idle && FeasibleFromBoot(main, idle, steps)
    requires l in FromBoot(main, idle, steps).locks
    ensures var st := FromBoot(main, idle, steps);
            && (Depth(st, a, l) > 0 && Depth(st, b, l) > 0 ==> a == b)
            && (Depth(st, a, l) > 0 ==> st.locks[l] == Lock(Some(a), Depth(st, a, l)))
  {
    assert LockOk(FromBoot(main, idle, steps), l);
  }
}
