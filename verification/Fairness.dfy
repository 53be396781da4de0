/** Semaphores and locks in the order of events: who waits, who is woken, and what
    the counters count, over whole interleavings. */
module Fairness {
  import opened Options
  import opened Sequences
  import opened Scheduling
  import opened Synchronization
  import P = Preemption

  function Waiters(st: System, s: Sid): seq<Tid> {
    if s in st.semas then st.semas[s].waiters else []
  }

  /** The step tests the value in the loop of sema_down: for a lock, unless its
      holder nests. */
  predicate Tests(st: System, a: Step, s: Sid) {
    && s in st.semas
    && (a == SemaDown(s) || (a == LockAcquire(s) && s in st.locks && st.locks[s].holder != Some(st.cpu.cur)))
  }

  /** The step raises the value: an up, the outermost release of a lock, or the end
      of a thread whose parent's semaphore it is. */
  predicate Raises(st: System, a: Step, s: Sid) {
    && s in st.semas
    && (a == SemaUp(s) || a == ThreadExit(Some(s)) || (a == LockRelease(s) && s in st.locks && st.locks[s].repeats <= 1))
  }

  /** A waiter is woken by something else than its semaphore. */
  predicate Outside(st: System, a: Step, s: Sid) {
    a.Sched? && a.e.UnblockEvent? && a.e.t in Waiters(st, s)
  }

  /** Who joins the waiters in a step: the thread that finds the value 0. */
  function Joiner(st: System, a: Step, s: Sid): seq<Tid> {
    if Tests(st, a, s) && st.semas[s].value == 0 then [st.cpu.cur] else []
  }

  /** Whom a step wakes: the first waiter when the value is raised. */
  function Leaver(st: System, a: Step, s: Sid): seq<Tid> {
    if Raises(st, a, s) && Waiters(st, s) != [] then [Waiters(st, s)[0]] else []
  }

  /** The value after a step, in its eight bits. */
  function ValueAfter(st: System, a: Step, s: Sid): int
    requires s in st.semas
  {
    var v := st.semas[s].value;
    if Raises(st, a, s) then (v + 1) % 256 else if Tests(st, a, s) && v > 0 then v - 1 else v
  }

  /** First come, first served, and the value counts. */
  ghost predicate Served(st: System, a: Step, u: System, s: Sid) {
    && (s in st.semas ==> s in u.semas && u.semas[s].value == ValueAfter(st, a, s))
    && (!Outside(st, a, s) ==> Waiters(st, s) + Joiner(st, a, s) == Leaver(st, a, s) + Waiters(u, s))
    && (Outside(st, a, s) ==> Waiters(u, s) == Without(Waiters(st, s), a.e.t))
  }

  lemma SchedServes(st: System, e: Event, cpu: Cpu, s: Sid)
    requires e.UnblockEvent? && e.t in Waiters(st, s) ==> InLoop(st, e.t, s)
    requires e.UnblockEvent? && e.t in st.downing ==> st.downing[e.t] in st.semas
    ensures Served(st, Sched(e), Moved(st, e, cpu), s)
  {
    if e.UnblockEvent? && s in st.semas {
      if e.t !in st.semas[s].waiters { WithoutNone(st.semas[s].waiters, e.t); }
    }
  }

  lemma DownServes(st: System, x: Sid, a: Step, s: Sid)
    requires Inv(st.cpu) && st.cpu.cur != st.cpu.idle && x in st.semas && st.cpu.cur !in st.semas[x].waiters
    requires st.semas[x].value < 256
    requires a == SemaDown(x) || (a == LockAcquire(x) && x in st.locks && st.locks[x].holder != Some(st.cpu.cur))
    ensures Served(st, a, Down(st, x), s)
  {}

  lemma CurrentAwake(st: System, x: Sid)
    requires SemasOk(st) && x in st.semas
    ensures st.cpu.cur !in st.semas[x].waiters && st.semas[x].value < 256
  {
    assert SemaOk(st, x);
  }

  lemma AcquireServes(st: System, l: Sid, s: Sid)
    requires Inv(st.cpu) && st.cpu.cur != st.cpu.idle && l in st.locks && l in st.semas
    requires st.cpu.cur !in st.semas[l].waiters && st.semas[l].value < 256
    ensures Served(st, LockAcquire(l), Acquire(st, l), s)
  {
    if st.locks[l].holder != Some(st.cpu.cur) {
      DownServes(st, l, LockAcquire(l), s);
    }
  }

  lemma UpServes(st: System, x: Sid, a: Step, s: Sid)
    requires x in st.semas && (st.semas[x].waiters != [] ==> Sleeping(st.cpu, st.semas[x].waiters[0]))
    requires !a.Sched? && !a.SemaDown? && !a.LockAcquire? && (forall y :: Raises(st, a, y) <==> y == x)
    ensures Served(st, a, Up(st, x), s)
  {
    var w := st.semas[x].waiters;
    if w != [] { assert w == [w[0]] + w[1..]; }
  }

  /** An up of the state in which the lock is already given up. */
  lemma ReleaseServes(st: System, l: Sid, s: Sid)
    requires l in st.locks && l in st.semas && Depth(st, st.cpu.cur, l) > 0
    requires st.semas[l].waiters != [] ==> Sleeping(st.cpu, st.semas[l].waiters[0])
    ensures Served(st, LockRelease(l), Release(st, l), s)
  {
    var w := st.semas[l].waiters;
    if w != [] { assert w == [w[0]] + w[1..]; }
  }

  lemma DieServes(st: System, parent: Option<Sid>, s: Sid)
    requires Ok(st) && Can(st, ThreadExit(parent))
    ensures Served(st, ThreadExit(parent), Die(st, parent), s)
  {
    if parent.Some? {
      UpKeeps(st, parent.value);
      UpServes(st, parent.value, ThreadExit(parent), s);
      OnlyCpu(st, ThreadExit(parent), Up(st, parent.value), Die(st, parent), s);
    } else {
      assert Die(st, parent) == st.(cpu := Exit(st.cpu));
    }
  }

  /** Who is served does not depend on the processor. */
  lemma OnlyCpu(st: System, a: Step, u: System, w: System, s: Sid)
    requires Served(st, a, u, s) && w.semas == u.semas
    ensures Served(st, a, w, s)
  {}

  lemma StepServes(st: System, a: Step, s: Sid)
    requires Ok(st) && Can(st, a)
    ensures Served(st, a, Do(st, a), s)
  {
    match a
    case Sched(e) =>
      if s in st.semas { assert SemaOk(st, s); }
      SchedServes(st, e, Next(st.cpu, e), s);
    case SemaDown(x) =>
      CurrentAwake(st, x);
      DownServes(st, x, a, s);
    case SemaUp(x) =>
      WaiterSleeps(st, x);
      UpServes(st, x, a, s);
    case LockAcquire(l) =>
      CurrentAwake(st, l);
      AcquireServes(st, l, s);
    case LockRelease(l) =>
      WaiterSleeps(st, l);
      ReleaseServes(st, l, s);
    case ThreadExit(parent) => DieServes(st, parent, s);
    case _ =>
  }

  /** The waiter that leaves slept until then and sleeps no longer; the one that
      joins sleeps. */
  lemma StepWakes(st: System, a: Step, s: Sid)
    requires Ok(st) && Can(st, a)
    ensures forall t :: t in Leaver(st, a, s) ==> Asleep(st.cpu, t) && !Asleep(Do(st, a).cpu, t)
    ensures forall t :: t in Joiner(st, a, s) ==> !Asleep(st.cpu, t) && Asleep(Do(st, a).cpu, t)
  {
    if Leaver(st, a, s) != [] {
      LeaverWakes(st, a, s);
    }
    if Joiner(st, a, s) != [] {
      BlockAfter(st.cpu);
    }
  }

  lemma LeaverWakes(st: System, a: Step, s: Sid)
    requires Ok(st) && Can(st, a) && Leaver(st, a, s) != []
    ensures var t := Leaver(st, a, s)[0]; Asleep(st.cpu, t) && !Asleep(Do(st, a).cpu, t)
  {
    var t := Waiters(st, s)[0];
    assert SemaOk(st, s) && t in st.semas[s].waiters;
    WaiterSleeps(st, s);
    match a
    case ThreadExit(_) => DeathWakes(st, s, t);
    case _ =>
  }

  /** The parent woken by a dying thread may run at once, or be ready. */
  lemma DeathWakes(st: System, s: Sid, t: Tid)
    requires Ok(st) && Can(st, ThreadExit(Some(s))) && Waiters(st, s) != [] && t == Waiters(st, s)[0]
    ensures !Asleep(Die(st, Some(s)).cpu, t)
  {
    UpKeeps(st, s);
    WaiterSleeps(st, s);
    P.ExitIs(Up(st, s).cpu);
  }

  /** What a step of a primitive does to the processor.  A thread that finds the
      value 0 gives it up, asleep and with the third priority; a raise that wakes a
      thread makes it the next to run, with the first priority; a thread that dies
      gives the processor up for good; nothing else moves a thread. */
  ghost predicate StepMoves(st: System, a: Step, u: System) {
    var s, cur := st.cpu, st.cpu.cur;
    match a
    case Sched(e) => Inv(s) && Enabled(s, e) && u.cpu == Next(s, e)
    case InitSema(_, _) => u.cpu == s
    case InitLock(_) => u.cpu == s
    case SemaDown(x) => WaitMoves(st, a, u, x)
    case LockAcquire(x) => WaitMoves(st, a, u, x)
    case SemaUp(x) => u.cpu == Roused(s, Leaver(st, a, x))
    case LockRelease(x) => u.cpu == Roused(s, Leaver(st, a, x))
    case ThreadExit(parent) =>
      var roused := if parent.Some? then Roused(s, Leaver(st, a, parent.value)) else s;
      && P.Switched(roused, u.cpu, 0) && u.cpu.cur != cur
      && cur in s.threads && cur in u.cpu.threads && u.cpu.threads[cur] == s.threads[cur].(status := Died)
  }

  ghost predicate WaitMoves(st: System, a: Step, u: System, x: Sid) {
    var s, cur := st.cpu, st.cpu.cur;
    if Joiner(st, a, x) == [] then u.cpu == s
    else
      && P.Switched(s, u.cpu, 0) && u.cpu.cur != cur
      && cur in s.threads && cur in u.cpu.threads && u.cpu.threads[cur] == Thread(Blocked, 10, s.threads[cur].ticks)
  }

  /** The processor once a thread, if there is one, has been woken. */
  function Roused(s: Cpu, woken: seq<Tid>): Cpu {
    if woken == [] then s
    else s.(threads := s.threads[woken[0] := Thread(Ready, 30, 25)], first := [woken[0]] + s.first)
  }

  lemma UpRouses(st: System, x: Sid)
    requires SemasOk(st) && x in st.semas
    ensures st.semas[x].waiters != [] ==> Sleeping(st.cpu, st.semas[x].waiters[0])
    ensures Up(st, x).cpu == Roused(st.cpu, if st.semas[x].waiters == [] then [] else [st.semas[x].waiters[0]])
  {
    WaiterSleeps(st, x);
  }

  lemma StepIs(st: System, a: Step)
    requires Ok(st) && Can(st, a)
    ensures StepMoves(st, a, Do(st, a))
  {
    match a
    case SemaDown(x) => WaitIs(st, a, x);
    case LockAcquire(x) => WaitIs(st, a, x);
    case SemaUp(x) => UpRouses(st, x);
    case LockRelease(x) => ReleaseRouses(st, x);
    case ThreadExit(parent) => DeathIs(st, parent);
    case _ =>
  }

  lemma WaitIs(st: System, a: Step, x: Sid)
    requires Ok(st) && Can(st, a) && (a == SemaDown(x) || a == LockAcquire(x))
    ensures WaitMoves(st, a, Do(st, a), x)
  {
    if Joiner(st, a, x) != [] {
      P.BlockIs(st.cpu, Blocked);
    }
  }

  lemma ReleaseRouses(st: System, x: Sid)
    requires Ok(st) && Can(st, LockRelease(x))
    ensures Do(st, LockRelease(x)).cpu == Roused(st.cpu, Leaver(st, LockRelease(x), x))
  {
    WaiterSleeps(st, x);
    assert LockOk(st, x);
  }

  lemma DeathIs(st: System, parent: Option<Sid>)
    requires Ok(st) && Can(st, ThreadExit(parent))
    ensures StepMoves(st, ThreadExit(parent), Die(st, parent))
  {
    if parent.Some? {
      UpKeeps(st, parent.value);
      UpRouses(st, parent.value);
      WaiterSleeps(st, parent.value);
      var w := Leaver(st, ThreadExit(parent), parent.value);
      DeadMoves(st.cpu, Up(st, parent.value).cpu, Die(st, parent).cpu, w);
    } else {
      P.ExitIs(st.cpu);
    }
  }

  lemma DeadMoves(s: Cpu, r: Cpu, u: Cpu, woken: seq<Tid>)
    requires s.cur in s.threads && s.cur !in woken && r == Roused(s, woken) && Inv(r) && r.cur != r.idle && u == Exit(r)
    ensures P.Switched(r, u, 0) && u.cur != s.cur && s.cur in u.threads
    ensures u.threads[s.cur] == s.threads[s.cur].(status := Died)
  {
    P.ExitIs(r);
  }

  // ---------- Runs ----------

  /** Nobody wakes a waiter from outside. */
  predicate NoOutside(st: System, steps: seq<Step>, s: Sid)
    requires Ok(st) && Feasible(st, steps)
    decreases steps
  {
    steps == []
    || (!Outside(st, steps[0], s) && (DoKeeps(st, steps[0]); NoOutside(Do(st, steps[0]), steps[1..], s)))
  }

  /** What happened to a semaphore: who joined the waiters and who was woken, in
      order, how often the value was raised, and how often a unit was taken. */
  datatype History = History(joined: seq<Tid>, woken: seq<Tid>, raised: nat, taken: nat)

  function Past(st: System, steps: seq<Step>, s: Sid): History
    requires Ok(st) && Feasible(st, steps)
    decreases steps
  {
    if steps == [] then History([], [], 0, 0)
    else DoKeeps(st, steps[0]); Before(st, steps[0], s, Past(Do(st, steps[0]), steps[1..], s))
  }

  /** A history with one step before it. */
  function Before(st: System, a: Step, s: Sid, h: History): History {
    History(Joiner(st, a, s) + h.joined, Leaver(st, a, s) + h.woken,
            (if Raises(st, a, s) then 1 else 0) + h.raised,
            (if Tests(st, a, s) && st.semas[s].value > 0 then 1 else 0) + h.taken)
  }

  /** First come, first served, over every interleaving: those that waited at first
      and those that joined are those woken and those that wait at last, in order. */
  lemma {:induction false} RunServes(st: System, steps: seq<Step>, s: Sid)
    requires Ok(st) && Feasible(st, steps) && NoOutside(st, steps, s)
    ensures Waiters(st, s) + Past(st, steps, s).joined ==
            Past(st, steps, s).woken + Waiters(Interleaved(st, steps), s)
    decreases steps
  {
    if steps != [] {
      var a, u, rest := steps[0], Do(st, steps[0]), steps[1..];
      DoKeeps(st, a);
      StepServes(st, a, s);
      RunServes(u, rest, s);
      Chain(Waiters(st, s), Joiner(st, a, s), Leaver(st, a, s), Waiters(u, s),
            Past(u, rest, s).joined, Past(u, rest, s).woken, Waiters(Interleaved(u, rest), s));
    }
  }

  lemma Chain<X>(w: seq<X>, j: seq<X>, l: seq<X>, v: seq<X>, js: seq<X>, ls: seq<X>, z: seq<X>)
    requires w + j == l + v && v + js == ls + z
    ensures w + (j + js) == (l + ls) + z
  {
    Assoc(w, j, js);
    Assoc(l, v, js);
    Assoc(l, ls, z);
  }

  /** From boot all who wait have joined, and are woken in the order of joining. */
  lemma FirstComeFirstServed(main: Tid, idle: Tid, steps: seq<Step>, s: Sid)
    requires main != idle && FeasibleFromBoot(main, idle, steps)
    requires Ok(Booted(main, idle)) && NoOutside(Booted(main, idle), steps, s)
    ensures var st := Booted(main, idle);
            Past(st, steps, s).joined == Past(st, steps, s).woken + Waiters(FromBoot(main, idle, steps), s)
  {
    RunServes(Booted(main, idle), steps, s);
    assert Waiters(Booted(main, idle), s) == [];
  }

  /** After so many ups a thread with n waiters before it has moved up in `now`, or
      has been the (n+1)-th to be woken. */
  predicate InTurn(t: Tid, n: nat, h: History, now: seq<Tid>) {
    if h.raised <= n then n - h.raised < |now| && now[n - h.raised] == t && |h.woken| == h.raised
    else n < |h.woken| && h.woken[n] == t
  }

  /** While threads wait, every up wakes one. */
  lemma {:induction false} EveryUpWakes(st: System, steps: seq<Step>, s: Sid)
    requires Ok(st) && Feasible(st, steps) && NoOutside(st, steps, s)
    ensures AllWoken(|Waiters(st, s)|, |Past(st, steps, s).woken|, Past(st, steps, s).raised)
    decreases steps
  {
    if steps != [] {
      var a, u, rest := steps[0], Do(st, steps[0]), steps[1..];
      DoKeeps(st, a);
      EveryUpWakes(u, rest, s);
      StepCounts(st, a, s);
      OneMore(|Waiters(st, s)|, |Waiters(u, s)|, Raises(st, a, s), |Leaver(st, a, s)|,
              |Past(u, rest, s).woken|, Past(u, rest, s).raised);
    }
  }

  /** Of w waiters so many are woken by so many ups. */
  predicate AllWoken(w: nat, woken: nat, ups: nat) {
    woken <= ups && woken >= if ups <= w then ups else w
  }

  lemma StepCounts(st: System, a: Step, s: Sid)
    requires Ok(st) && Can(st, a) && !Outside(st, a, s)
    ensures |Waiters(Do(st, a), s)| + |Leaver(st, a, s)| >= |Waiters(st, s)|
    ensures |Leaver(st, a, s)| == if Raises(st, a, s) && |Waiters(st, s)| > 0 then 1 else 0
  {
    StepServes(st, a, s);
    assert |Waiters(st, s) + Joiner(st, a, s)| == |Leaver(st, a, s) + Waiters(Do(st, a), s)|;
  }

  lemma OneMore(w: nat, v: nat, up: bool, l: nat, woken: nat, ups: nat)
    requires v + l >= w && l == (if up && w > 0 then 1 else 0) && AllWoken(v, woken, ups)
    ensures AllWoken(w, l + woken, (if up then 1 else 0) + ups)
  {}

  /** A thread with n waiters before it is woken by the (n+1)-th up, and waits
      until then, each up bringing it one place forward. */
  lemma WokenInTurn(st: System, steps: seq<Step>, s: Sid, n: nat)
    requires Ok(st) && Feasible(st, steps) && NoOutside(st, steps, s) && n < |Waiters(st, s)|
    ensures InTurn(Waiters(st, s)[n], n, Past(st, steps, s), Waiters(Interleaved(st, steps), s))
  {
    RunServes(st, steps, s);
    EveryUpWakes(st, steps, s);
    Turn(Waiters(st, s), Past(st, steps, s), Waiters(Interleaved(st, steps), s), n);
  }

  lemma Turn(w: seq<Tid>, h: History, now: seq<Tid>, n: nat)
    requires w + h.joined == h.woken + now && AllWoken(|w|, |h.woken|, h.raised) && n < |w|
    ensures InTurn(w[n], n, h, now)
  {
    Place(w, h.joined, h.woken, now, n);
  }

  /** An element of the first of two equal sums. */
  lemma Place(w: seq<Tid>, j: seq<Tid>, l: seq<Tid>, z: seq<Tid>, n: nat)
    requires w + j == l + z && n < |w|
    ensures if n < |l| then l[n] == w[n] else n - |l| < |z| && z[n - |l|] == w[n]
  {
    assert (w + j)[n] == w[n] && |w + j| == |l + z|;
  }

  function Value(st: System, s: Sid): nat { if s in st.semas then st.semas[s].value else 0 }

  /** From the value `v`, after the ups and downs of a history, to `z`, in eight
      bits. */
  predicate Balanced(v: nat, h: History, z: nat) {
    (z + h.taken) % 256 == (v + h.raised) % 256
  }

  /** Over every interleaving the value counts the ups and the units taken. */
  lemma {:induction false} RunCounts(st: System, steps: seq<Step>, s: Sid)
    requires Ok(st) && Feasible(st, steps) && s in st.semas
    ensures s in Interleaved(st, steps).semas
    ensures Balanced(Value(st, s), Past(st, steps, s), Value(Interleaved(st, steps), s))
    decreases steps
  {
    if steps != [] {
      var a, u, rest := steps[0], Do(st, steps[0]), steps[1..];
      DoKeeps(st, a);
      StepValue(st, a, s);
      RunCounts(u, rest, s);
      Counted(st, a, u, s, Past(u, rest, s), Value(Interleaved(u, rest), s));
    }
  }

  lemma Counted(st: System, a: Step, u: System, s: Sid, h: History, z: nat)
    requires s in st.semas
    requires ValueStep(Value(st, s), Value(u, s), Raises(st, a, s), Tests(st, a, s) && st.semas[s].value > 0)
    requires Balanced(Value(u, s), h, z)
    ensures Balanced(Value(st, s), Before(st, a, s, h), z)
  {
    CountedOnce(Value(st, s), Value(u, s), Raises(st, a, s), Tests(st, a, s) && st.semas[s].value > 0,
                h, Before(st, a, s, h), z);
  }

  predicate ValueStep(v: nat, w: nat, up: bool, down: bool) {
    !(up && down) && w == if up then (v + 1) % 256 else if down then v - 1 else v
  }

  lemma StepValue(st: System, a: Step, s: Sid)
    requires Ok(st) && Can(st, a) && s in st.semas
    ensures s in Do(st, a).semas
    ensures ValueStep(Value(st, s), Value(Do(st, a), s), Raises(st, a, s), Tests(st, a, s) && st.semas[s].value > 0)
  {
    StepServes(st, a, s);
  }

  /** One step from the value `v` to `w`. */
  lemma CountedOnce(v: nat, w: nat, up: bool, down: bool, h: History, g: History, z: nat)
    requires ValueStep(v, w, up, down) && Balanced(w, h, z)
    requires g.raised == (if up then 1 else 0) + h.raised && g.taken == (if down then 1 else 0) + h.taken
    ensures Balanced(v, g, z)
  {
    if up {
      Congruent(w, v + 1, h.raised);
    } else if down {
      Congruent(z + h.taken, w + h.raised, 1);
    }
  }

  lemma Congruent(a: nat, b: nat, k: nat)
    requires a % 256 == b % 256
    ensures (a + k) % 256 == (b + k) % 256
  {
    var m := a / 256 - b / 256;
    assert a + k == b + k + 256 * m;
  }

  /** What a new semaphore and a new lock hold. */
  lemma Made(st: System, a: Step)
    requires Ok(st) && Can(st, a) && (a.InitSema? || a.InitLock?)
    ensures a.s in Do(st, a).semas && Waiters(Do(st, a), a.s) == []
    ensures Do(st, a).semas[a.s].value == if a.InitLock? then 1 else a.value
    ensures a.InitLock? ==> a.s in Do(st, a).locks && Do(st, a).locks[a.s] == Lock(None, 0)
  {}

  // ---------- Locks ----------

  /** The thread gets the lock in this step, for the first time or again. */
  predicate Enters(st: System, a: Step, t: Tid, l: Sid) {
    && a == LockAcquire(l) && t == st.cpu.cur && l in st.locks && l in st.semas
    && (st.locks[l].holder == Some(t) || st.semas[l].value > 0)
  }

  predicate Leaves(st: System, a: Step, t: Tid, l: Sid) {
    a == LockRelease(l) && t == st.cpu.cur
  }

  lemma AcquireDepth(st: System, x: Sid, t: Tid, l: Sid)
    requires Inv(st.cpu) && st.cpu.cur != st.cpu.idle && x in st.locks && x in st.semas && l in st.locks
    ensures l in Acquire(st, x).locks
    ensures Depth(Acquire(st, x), t, l) == Depth(st, t, l) + (if Enters(st, LockAcquire(x), t, l) then 1 else 0)
  {}

  lemma ReleaseDepth(st: System, x: Sid, t: Tid, l: Sid)
    requires x in st.locks && x in st.semas && l in st.locks && Depth(st, st.cpu.cur, x) > 0
    requires st.semas[x].waiters != [] ==> Sleeping(st.cpu, st.semas[x].waiters[0])
    ensures l in Release(st, x).locks
    ensures Depth(Release(st, x), t, l) + (if Leaves(st, LockRelease(x), t, l) then 1 else 0) == Depth(st, t, l)
  {}

  lemma DieDepth(st: System, parent: Option<Sid>)
    requires Ok(st) && Can(st, ThreadExit(parent))
    ensures Die(st, parent).locks == st.locks && Die(st, parent).depth == st.depth
  {
    if parent.Some? {
      UpKeeps(st, parent.value);
      UpDepth(st, parent.value);
    }
  }

  lemma UpDepth(st: System, x: Sid)
    requires x in st.semas && (st.semas[x].waiters != [] ==> Sleeping(st.cpu, st.semas[x].waiters[0]))
    ensures Up(st, x).locks == st.locks && Up(st, x).depth == st.depth
  {}

  lemma StepDepth(st: System, a: Step, t: Tid, l: Sid)
    requires Ok(st) && Can(st, a) && l in st.locks
    ensures l in Do(st, a).locks
    ensures Depth(Do(st, a), t, l) + (if Leaves(st, a, t, l) then 1 else 0) ==
            Depth(st, t, l) + (if Enters(st, a, t, l) then 1 else 0)
  {
    match a
    case LockAcquire(x) => AcquireDepth(st, x, t, l);
    case LockRelease(x) =>
      WaiterSleeps(st, x);
      ReleaseDepth(st, x, t, l);
    case ThreadExit(parent) => DieDepth(st, parent);
    case _ => PlainDepth(st, a, t, l);
  }

  /** The other steps leave every depth alone. */
  lemma PlainDepth(st: System, a: Step, t: Tid, l: Sid)
    requires Ok(st) && Can(st, a) && l in st.locks && !a.LockAcquire? && !a.LockRelease? && !a.ThreadExit?
    ensures l in Do(st, a).locks && Depth(Do(st, a), t, l) == Depth(st, t, l)
  {
    match a
    case SemaUp(s) => WaiterSleeps(st, s);
    case _ =>
  }

  function Entered(st: System, steps: seq<Step>, t: Tid, l: Sid): nat
    requires Ok(st) && Feasible(st, steps)
    decreases steps
  {
    if steps == [] then 0
    else
      DoKeeps(st, steps[0]);
      (if Enters(st, steps[0], t, l) then 1 else 0) + Entered(Do(st, steps[0]), steps[1..], t, l)
  }

  function Left(st: System, steps: seq<Step>, t: Tid, l: Sid): nat
    requires Ok(st) && Feasible(st, steps)
    decreases steps
  {
    if steps == [] then 0
    else
      DoKeeps(st, steps[0]);
      (if Leaves(st, steps[0], t, l) then 1 else 0) + Left(Do(st, steps[0]), steps[1..], t, l)
  }

  /** Over every interleaving a thread's depth counts how often it got the lock and
      how often it released it. */
  lemma {:induction false} RunDepth(st: System, steps: seq<Step>, t: Tid, l: Sid)
    requires Ok(st) && Feasible(st, steps) && l in st.locks
    ensures Depth(Interleaved(st, steps), t, l) + Left(st, steps, t, l) == Depth(st, t, l) + Entered(st, steps, t, l)
    decreases steps
  {
    if steps != [] {
      DoKeeps(st, steps[0]);
      StepDepth(st, steps[0], t, l);
      RunDepth(Do(st, steps[0]), steps[1..], t, l);
    }
  }
}
