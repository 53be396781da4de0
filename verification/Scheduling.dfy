/** The three-level feedback queue: threads, ready lists, the running thread and
    the idle thread, with every kernel entry that moves a thread. */
module Scheduling {
  import opened Sequences

  type Tid = nat

  datatype Status = Running | Ready | Blocked | Waiting | Hanging | Died

  datatype Thread = Thread(status: Status, priority: nat, ticks: nat)

  const FIRST_PRIO: nat := 30
  const SECOND_PRIO: nat := 20
  const THIRD_PRIO: nat := 10
  const FIRST_TICKS: nat := 25
  const SECOND_TICKS: nat := 15
  const THIRD_TICKS: nat := 10
  /** The value that marks a used-up quantum between the timer and schedule. */
  const EXPIRED: nat := 0xffff_ffff

  /** The list a priority belongs on: every switch falls to the third list by
      default. */
  function Level(priority: nat): (level: nat)
    ensures 1 <= level <= 3
  {
    if priority == FIRST_PRIO then 1 else if priority == SECOND_PRIO then 2 else 3
  }

  datatype Cpu = Cpu(threads: map<Tid, Thread>, first: seq<Tid>, second: seq<Tid>, third: seq<Tid>,
                     cur: Tid, idle: Tid)

  predicate ReadyAt(s: Cpu, t: Tid, level: nat) {
    t in s.threads && s.threads[t].status == Ready && Level(s.threads[t].priority) == level
  }

  /** Each ready list holds exactly the ready threads of its priority, once. */
  ghost predicate ListsMatch(s: Cpu) {
    && NoDup(s.first) && NoDup(s.second) && NoDup(s.third)
    && (forall t :: t in s.first <==> ReadyAt(s, t, 1))
    && (forall t :: t in s.second <==> ReadyAt(s, t, 2))
    && (forall t :: t in s.third <==> ReadyAt(s, t, 3))
  }

  /** What holds whenever schedule is entered: the current thread may have
      taken any status, but nobody else is running. */
  ghost predicate MayChange(s: Cpu) {
    && ListsMatch(s)
    && s.cur in s.threads && s.idle in s.threads
    && (forall t :: t in s.threads && t != s.cur ==> s.threads[t].status != Running)
    && s.threads[s.idle].status in {Running, Ready, Waiting}
    && Level(s.threads[s.idle].priority) == 3
  }

  /** The scheduler's invariant: exactly one thread is running, it is the
      current one, and it is on no list. */
  ghost predicate Inv(s: Cpu) {
    MayChange(s) && s.threads[s.cur].status == Running
  }

  // ---------- Moving one thread ----------

  predicate NothingReady(s: Cpu) {
    s.first == [] && s.second == [] && s.third == []
  }

  function With(s: Cpu, t: Tid, th: Thread): Cpu {
    s.(threads := s.threads[t := th])
  }

  /** Append to the list of the thread's priority. */
  function Enqueue(s: Cpu, t: Tid): Cpu
    requires t in s.threads
  {
    var level := Level(s.threads[t].priority);
    if level == 1 then s.(first := s.first + [t])
    else if level == 2 then s.(second := s.second + [t])
    else s.(third := s.third + [t])
  }

  lemma EnqueueKeeps(s: Cpu, t: Tid, th: Thread)
    requires MayChange(s) && th.status == Ready
    requires t !in s.threads || s.threads[t].status != Ready
    requires t == s.idle ==> Level(th.priority) == 3
    ensures MayChange(Enqueue(With(s, t, th), t))
  {
    var u := With(s, t, th);
    var v := Enqueue(u, t);
    assert t !in s.first && t !in s.second && t !in s.third;
    AppendMember(s.first, t);
    AppendMember(s.second, t);
    AppendMember(s.third, t);
    assert forall x :: x != t ==> (ReadyAt(v, x, 1) <==> ReadyAt(s, x, 1));
    assert forall x :: x != t ==> (ReadyAt(v, x, 2) <==> ReadyAt(s, x, 2));
    assert forall x :: x != t ==> (ReadyAt(v, x, 3) <==> ReadyAt(s, x, 3));
  }

  /** thread_unblock_idle: the idle thread goes to the front of the third list. */
  function UnblockIdle(s: Cpu): Cpu
    requires s.idle in s.threads
  {
    if s.threads[s.idle].status != Ready then
      With(s, s.idle, s.threads[s.idle].(status := Ready)).(third := [s.idle] + s.third)
    else s
  }

  lemma UnblockIdleKeeps(s: Cpu)
    requires MayChange(s)
    ensures MayChange(UnblockIdle(s))
    ensures NothingReady(s) ==> !NothingReady(UnblockIdle(s))
  {
    var v := UnblockIdle(s);
    if NothingReady(s) {
      assert s.threads[s.idle].status != Ready by {
        assert s.idle !in s.third;
      }
    }
    if s.threads[s.idle].status != Ready {
      assert s.idle !in s.third;
      assert forall x :: x in v.third <==> x == s.idle || x in s.third;
      assert forall x :: x != s.idle ==> (ReadyAt(v, x, 1) <==> ReadyAt(s, x, 1));
      assert forall x :: x != s.idle ==> (ReadyAt(v, x, 2) <==> ReadyAt(s, x, 2));
      assert forall x :: x != s.idle ==> (ReadyAt(v, x, 3) <==> ReadyAt(s, x, 3));
    }
  }

  /** thread_unblock: first priority, a fresh quantum, the front of the list. */
  function Unblock(s: Cpu, t: Tid): Cpu
    requires t in s.threads
  {
    With(s, t, Thread(Ready, FIRST_PRIO, FIRST_TICKS)).(first := [t] + s.first)
  }

  predicate Sleeping(s: Cpu, t: Tid) {
    t in s.threads && s.threads[t].status in {Blocked, Waiting, Hanging}
  }

  lemma UnblockKeeps(s: Cpu, t: Tid)
    requires MayChange(s) && Sleeping(s, t) && t != s.idle
    ensures MayChange(Unblock(s, t))
    ensures t != s.cur && Inv(s) ==> Inv(Unblock(s, t))
  {
    var v := Unblock(s, t);
    assert t !in s.first && t !in s.second && t !in s.third;
    assert forall x :: x in v.first <==> x == t || x in s.first;
    assert forall x :: x != t ==> (ReadyAt(v, x, 1) <==> ReadyAt(s, x, 1));
    assert forall x :: x != t ==> (ReadyAt(v, x, 2) <==> ReadyAt(s, x, 2));
    assert forall x :: x != t ==> (ReadyAt(v, x, 3) <==> ReadyAt(s, x, 3));
  }

  // ---------- schedule ----------

  /** The thread schedule pops: the front of the highest list that has one. */
  function Pick(s: Cpu): (t: Tid)
    requires !NothingReady(s)
    ensures s.first != [] ==> t == s.first[0]
    ensures s.first == [] && s.second != [] ==> t == s.second[0]
    ensures s.first == [] && s.second == [] ==> t == s.third[0]
  {
    if s.first != [] then s.first[0] else if s.second != [] then s.second[0] else s.third[0]
  }

  function Popped(s: Cpu): Cpu
    requires !NothingReady(s)
  {
    if s.first != [] then s.(first := s.first[1..])
    else if s.second != [] then s.(second := s.second[1..])
    else s.(third := s.third[1..])
  }

  /** A running thread that is put back: demoted with a new quantum if it used
      its quantum up, otherwise as it was. */
  function PutBack(th: Thread): Thread {
    if th.ticks == EXPIRED then
      if th.priority == FIRST_PRIO then Thread(Ready, SECOND_PRIO, SECOND_TICKS)
      else Thread(Ready, THIRD_PRIO, THIRD_TICKS)
    else
      Thread(Ready, if Level(th.priority) == 3 then THIRD_PRIO else th.priority, th.ticks)
  }

  function LeaveCurrent(s: Cpu): Cpu
    requires s.cur in s.threads
  {
    var th := s.threads[s.cur];
    match th.status
    case Running => Enqueue(With(s, s.cur, PutBack(th)), s.cur)
    case Blocked => With(s, s.cur, th.(priority := THIRD_PRIO))
    case _ => s
  }

  function Dispatch(s: Cpu, next: Tid): Cpu
    requires next in s.threads
  {
    With(s, next, s.threads[next].(status := Running)).(cur := next)
  }

  lemma LeaveKeepsThreads(s: Cpu)
    requires s.cur in s.threads
    ensures LeaveCurrent(s).threads.Keys == s.threads.Keys
  {}

  /** The body of schedule once a ready thread exists. */
  function Switch(s: Cpu): Cpu
    requires s.cur in s.threads && !NothingReady(s) && Pick(s) in s.threads
  {
    Dispatch(LeaveCurrent(Popped(s)), Pick(s))
  }

  /** What schedule pops is a ready thread, from the highest list that has
      one. */
  lemma PickIsReady(s: Cpu)
    requires MayChange(s) && !NothingReady(s)
    ensures var t := Pick(s);
            t in s.threads && s.threads[t].status == Ready
            && (forall x :: x in s.threads && s.threads[x].status == Ready
                 ==> Level(s.threads[t].priority) <= Level(s.threads[x].priority))
  {
    var t := Pick(s);
    assert t in s.first || t in s.second || t in s.third;
    assert ReadyAt(s, t, 1) || ReadyAt(s, t, 2) || ReadyAt(s, t, 3);
    forall x | x in s.threads && s.threads[x].status == Ready
      ensures Level(s.threads[t].priority) <= Level(s.threads[x].priority)
    {
      assert ReadyAt(s, x, Level(s.threads[x].priority));
      assert x in s.first || x in s.second || x in s.third;
      assert s.first == [] ==> x !in s.first;
      assert s.second == [] ==> x !in s.second;
    }
  }

  /** schedule.  Its pop takes a thread and not a sentinel because a ready
      thread exists: that is this function's precondition. */
  function Schedule(s: Cpu): Cpu
    requires MayChange(s)
  {
    UnblockIdleKeeps(s);
    PickIsReady(WithSomeoneReady(s));
    Switch(WithSomeoneReady(s))
  }

  function WithSomeoneReady(s: Cpu): Cpu
    requires s.idle in s.threads
  {
    if NothingReady(s) then UnblockIdle(s) else s
  }

  /** Running the front thread of the highest list of a state in which the
      current thread has already left. */
  lemma DispatchKeeps(s: Cpu, q: Cpu, next: Tid)
    requires MayChange(s) && s.threads[s.cur].status != Running
    requires q.threads == s.threads && q.cur == s.cur && q.idle == s.idle
    requires || (s.first != [] && next == s.first[0] && q == s.(first := s.first[1..]))
             || (s.second != [] && next == s.second[0] && q == s.(second := s.second[1..]))
             || (s.third != [] && next == s.third[0] && q == s.(third := s.third[1..]))
    ensures next in s.threads && Inv(Dispatch(q, next))
  {
    if s.first != [] { PopMember(s.first); assert s.first[0] in s.first; }
    if s.second != [] { PopMember(s.second); assert s.second[0] in s.second; }
    if s.third != [] { PopMember(s.third); assert s.third[0] in s.third; }
    assert ReadyAt(s, next, 1) || ReadyAt(s, next, 2) || ReadyAt(s, next, 3);
    DispatchReady(s, q, next);
  }

  lemma DispatchReady(s: Cpu, q: Cpu, next: Tid)
    requires next in s.threads && q.threads == s.threads
    ensures forall x, level :: ReadyAt(Dispatch(q, next), x, level) <==> x != next && ReadyAt(s, x, level)
  {}

  lemma BlockedKeeps(s: Cpu, th: Thread)
    requires MayChange(s) && s.threads[s.cur].status != Ready && th.status != Ready
    requires s.cur == s.idle ==> th.status in {Running, Waiting} && Level(th.priority) == 3
    ensures MayChange(With(s, s.cur, th))
  {
    var v := With(s, s.cur, th);
    assert s.cur !in s.first && s.cur !in s.second && s.cur !in s.third;
    assert forall x :: ReadyAt(v, x, 1) <==> ReadyAt(s, x, 1);
    assert forall x :: ReadyAt(v, x, 2) <==> ReadyAt(s, x, 2);
    assert forall x :: ReadyAt(v, x, 3) <==> ReadyAt(s, x, 3);
  }

  lemma LeaveKeeps(s: Cpu)
    requires MayChange(s)
    ensures MayChange(LeaveCurrent(s)) && LeaveCurrent(s).threads[s.cur].status != Running
  {
    var th := s.threads[s.cur];
    if th.status == Running {
      EnqueueKeeps(s, s.cur, PutBack(th));
    } else if th.status == Blocked {
      BlockedKeeps(s, th.(priority := THIRD_PRIO));
    }
  }

  /** Popping the front and putting the current thread at the back of a list
      commute, because the list popped was not empty. */
  lemma LeaveAfterPop(s: Cpu)
    requires s.cur in s.threads && !NothingReady(s)
    ensures var u, q := LeaveCurrent(s), LeaveCurrent(Popped(s));
            q.threads == u.threads && q.cur == u.cur && q.idle == u.idle
            && (s.first != [] ==> u.first != [] && u.first[0] == s.first[0] && q == u.(first := u.first[1..]))
            && (s.first == [] && s.second != [] ==>
                  u.second != [] && u.second[0] == s.second[0] && q == u.(second := u.second[1..]))
            && (s.first == [] && s.second == [] ==>
                  u.third != [] && u.third[0] == s.third[0] && q == u.(third := u.third[1..]))
  {
    var c := [s.cur];
    if s.first != [] { assert s.first[1..] + c == (s.first + c)[1..]; }
    if s.second != [] { assert s.second[1..] + c == (s.second + c)[1..]; }
    if s.third != [] { assert s.third[1..] + c == (s.third + c)[1..]; }
  }

  lemma SwitchKeeps(s: Cpu)
    requires MayChange(s) && !NothingReady(s)
    ensures Pick(s) in s.threads && Inv(Switch(s)) && Switch(s).cur == Pick(s)
  {
    PickIsReady(s);
    LeaveKeeps(s);
    LeaveAfterPop(s);
    DispatchKeeps(LeaveCurrent(s), LeaveCurrent(Popped(s)), Pick(s));
  }

  /** schedule re-establishes the invariant from any state a kernel entry may
      leave the current thread in. */
  lemma ScheduleKeeps(s: Cpu)
    requires MayChange(s)
    ensures Inv(Schedule(s))
  {
    UnblockIdleKeeps(s);
    SwitchKeeps(WithSomeoneReady(s));
  }

  // ---------- The kernel entries ----------

  /** intr_timer_handler. */
  function Tick(s: Cpu): Cpu
    requires Inv(s)
  {
    var th := s.threads[s.cur];
    if th.ticks == 0 then
      BlockedKeeps(s, th.(ticks := EXPIRED));
      Schedule(With(s, s.cur, th.(ticks := EXPIRED)))
    else
      BlockedKeeps(s, th.(ticks := th.ticks - 1));
      var u := With(s, s.cur, th.(ticks := th.ticks - 1));
      if || (th.priority == SECOND_PRIO && s.first != [])
         || (th.priority == THIRD_PRIO && (s.first != [] || s.second != []))
      then Schedule(u) else u
  }

  /** thread_block. */
  function Block(s: Cpu, stat: Status): Cpu
    requires Inv(s) && stat in {Blocked, Waiting, Hanging} && (s.cur == s.idle ==> stat == Waiting)
  {
    BlockedKeeps(s, s.threads[s.cur].(status := stat));
    Schedule(With(s, s.cur, s.threads[s.cur].(status := stat)))
  }

  /** thread_yield. */
  function Yield(s: Cpu): Cpu
    requires Inv(s) && s.cur != s.idle
  {
    EnqueueKeeps(s, s.cur, s.threads[s.cur].(status := Ready, priority := FIRST_PRIO));
    Schedule(Enqueue(With(s, s.cur, s.threads[s.cur].(status := Ready, priority := FIRST_PRIO)), s.cur))
  }

  /** thread_start, for a thread not known before. */
  function Start(s: Cpu, t: Tid, prio: nat): Cpu
    requires Inv(s) && t !in s.threads
  {
    Enqueue(With(s, t, Thread(Ready, prio, prio)), t)
  }

  /** The last act of thread_exit. */
  function Exit(s: Cpu): Cpu
    requires Inv(s) && s.cur != s.idle
  {
    BlockedKeeps(s, s.threads[s.cur].(status := Died));
    Schedule(With(s, s.cur, s.threads[s.cur].(status := Died)))
  }

  lemma TickKeeps(s: Cpu)
    requires Inv(s)
    ensures Inv(Tick(s))
  {
    var th := s.threads[s.cur];
    if th.ticks == 0 {
      BlockedKeeps(s, th.(ticks := EXPIRED));
      ScheduleKeeps(With(s, s.cur, th.(ticks := EXPIRED)));
    } else {
      BlockedKeeps(s, th.(ticks := th.ticks - 1));
      ScheduleKeeps(With(s, s.cur, th.(ticks := th.ticks - 1)));
    }
  }

  lemma BlockKeeps(s: Cpu, stat: Status)
    requires Inv(s) && stat in {Blocked, Waiting, Hanging} && (s.cur == s.idle ==> stat == Waiting)
    ensures Inv(Block(s, stat))
  {
    BlockedKeeps(s, s.threads[s.cur].(status := stat));
    ScheduleKeeps(With(s, s.cur, s.threads[s.cur].(status := stat)));
  }

  lemma YieldKeeps(s: Cpu)
    requires Inv(s) && s.cur != s.idle
    ensures Inv(Yield(s))
  {
    var th := s.threads[s.cur].(status := Ready, priority := FIRST_PRIO);
    EnqueueKeeps(s, s.cur, th);
    ScheduleKeeps(Enqueue(With(s, s.cur, th), s.cur));
  }

  lemma StartKeeps(s: Cpu, t: Tid, prio: nat)
    requires Inv(s) && t !in s.threads
    ensures Inv(Start(s, t, prio))
  {
    EnqueueKeeps(s, t, Thread(Ready, prio, prio));
  }

  lemma ExitKeeps(s: Cpu)
    requires Inv(s) && s.cur != s.idle
    ensures Inv(Exit(s))
  {
    BlockedKeeps(s, s.threads[s.cur].(status := Died));
    ScheduleKeeps(With(s, s.cur, s.threads[s.cur].(status := Died)));
  }

  // ---------- Runs ----------

  datatype Event =
    | TickEvent
    | BlockEvent(stat: Status)
    | UnblockEvent(t: Tid)
    | YieldEvent
    | StartEvent(t: Tid, prio: nat)
    | ExitEvent

  /** What the kernel's callers see to: the idle thread does nothing but wait,
      nobody wakes it but schedule, and a woken thread sleeps (the ASSERT of
      thread_unblock). */
  predicate Enabled(s: Cpu, e: Event)
    requires s.cur in s.threads
  {
    match e
    case TickEvent => true
    case BlockEvent(stat) => stat in {Blocked, Waiting, Hanging} && (s.cur == s.idle ==> stat == Waiting)
    case UnblockEvent(t) => Sleeping(s, t) && t != s.idle
    case YieldEvent => s.cur != s.idle
    case StartEvent(t, _) => t !in s.threads
    case ExitEvent => s.cur != s.idle
  }

  function Next(s: Cpu, e: Event): Cpu
    requires Inv(s) && Enabled(s, e)
  {
    match e
    case TickEvent => Tick(s)
    case BlockEvent(stat) => Block(s, stat)
    case UnblockEvent(t) => Unblock(s, t)
    case YieldEvent => Yield(s)
    case StartEvent(t, prio) => Start(s, t, prio)
    case ExitEvent => Exit(s)
  }

  lemma NextKeeps(s: Cpu, e: Event)
    requires Inv(s) && Enabled(s, e)
    ensures Inv(Next(s, e))
  {
    match e
    case TickEvent => TickKeeps(s);
    case BlockEvent(stat) => BlockKeeps(s, stat);
    case UnblockEvent(t) => UnblockKeeps(s, t);
    case YieldEvent => YieldKeeps(s);
    case StartEvent(t, prio) => StartKeeps(s, t, prio);
    case ExitEvent => ExitKeeps(s);
  }

  /** schedule moves no sleeping thread. */
  lemma ScheduleSleepers(s: Cpu, t: Tid)
    requires MayChange(s) && t in s.threads && s.threads[t].status == Blocked
    ensures t in Schedule(s).threads && Schedule(s).threads[t].status == Blocked
    ensures Schedule(s).threads.Keys == s.threads.Keys && Schedule(s).idle == s.idle
  {
    UnblockIdleKeeps(s);
    var r := WithSomeoneReady(s);
    PickIsReady(r);
    assert t in r.threads && r.threads[t].status == Blocked && r.threads.Keys == s.threads.Keys && r.idle == s.idle;
    SwitchSleepers(r, t);
  }

  lemma SwitchSleepers(r: Cpu, t: Tid)
    requires r.cur in r.threads && !NothingReady(r) && Pick(r) in r.threads && r.threads[Pick(r)].status == Ready
    requires t in r.threads && r.threads[t].status == Blocked
    ensures t in Switch(r).threads && Switch(r).threads[t].status == Blocked
    ensures Switch(r).threads.Keys == r.threads.Keys && Switch(r).idle == r.idle
  {}

  /** A blocked thread stays blocked until it is woken. */
  lemma BlockedStays(s: Cpu, e: Event, t: Tid)
    requires Inv(s) && Enabled(s, e) && e != UnblockEvent(t)
    requires t in s.threads && s.threads[t].status == Blocked
    ensures t in Next(s, e).threads && Next(s, e).threads[t].status == Blocked
  {
    match e
    case TickEvent =>
      var th := s.threads[s.cur];
      if th.ticks == 0 {
        BlockedKeeps(s, th.(ticks := EXPIRED));
        ScheduleSleepers(With(s, s.cur, th.(ticks := EXPIRED)), t);
      } else {
        BlockedKeeps(s, th.(ticks := th.ticks - 1));
        ScheduleSleepers(With(s, s.cur, th.(ticks := th.ticks - 1)), t);
      }
    case BlockEvent(stat) =>
      BlockedKeeps(s, s.threads[s.cur].(status := stat));
      ScheduleSleepers(With(s, s.cur, s.threads[s.cur].(status := stat)), t);
    case UnblockEvent(_) =>
    case YieldEvent =>
      var th := s.threads[s.cur].(status := Ready, priority := FIRST_PRIO);
      EnqueueKeeps(s, s.cur, th);
      ScheduleSleepers(Enqueue(With(s, s.cur, th), s.cur), t);
    case StartEvent(_, _) =>
    case ExitEvent =>
      BlockedKeeps(s, s.threads[s.cur].(status := Died));
      ScheduleSleepers(With(s, s.cur, s.threads[s.cur].(status := Died)), t);
  }

  /** No thread comes or goes but by being started, and the idle thread stays the
      same: the list of all threads stays right over every event. */
  lemma NextThreads(s: Cpu, e: Event)
    requires Inv(s) && Enabled(s, e)
    ensures Next(s, e).threads.Keys == s.threads.Keys + (if e.StartEvent? then {e.t} else {})
    ensures Next(s, e).idle == s.idle
  {
    if e == TickEvent {
      TickDomain(s);
    } else if e.BlockEvent? || e == YieldEvent || e == ExitEvent {
      LeavingTicks(s, e);
    }
    KeepsIdle(s, e);
  }

  predicate Possible(s: Cpu, es: seq<Event>)
    requires Inv(s)
    decreases es
  {
    es == [] || (Enabled(s, es[0]) && (NextKeeps(s, es[0]); Possible(Next(s, es[0]), es[1..])))
  }

  function Run(s: Cpu, es: seq<Event>): Cpu
    requires Inv(s) && Possible(s, es)
    decreases es
  {
    if es == [] then s else NextKeeps(s, es[0]); Run(Next(s, es[0]), es[1..])
  }

  /** Over every run: one running thread, every ready thread on the one list of
      its priority, all other threads on none. */
  lemma {:induction false} RunKeeps(s: Cpu, es: seq<Event>)
    requires Inv(s) && Possible(s, es)
    ensures Inv(Run(s, es))
    decreases es
  {
    if es != [] {
      NextKeeps(s, es[0]);
      RunKeeps(Next(s, es[0]), es[1..]);
    }
  }

  // ---------- How long a thread keeps a high priority ----------

  /** The ticks a thread can still receive before it is on the third level. */
  function Fuel(th: Thread): nat {
    if Level(th.priority) == 1 then th.ticks + 1 + SECOND_TICKS + 1
    else if Level(th.priority) == 2 then th.ticks + 1
    else 0
  }

  predicate SameQuantum(a: Thread, b: Thread) {
    a.priority == b.priority && a.ticks == b.ticks
  }

  lemma SwitchFrame(s: Cpu, t: Tid)
    requires s.cur in s.threads && t in s.threads && !NothingReady(s)
    requires Pick(s) in s.threads && s.threads[Pick(s)].status == Ready
    ensures Switch(s).threads.Keys == s.threads.Keys
    ensures t == s.cur && s.threads[t].status != Running ==> Switch(s).threads[t].ticks == s.threads[t].ticks
    ensures t != s.cur ==> SameQuantum(Switch(s).threads[t], s.threads[t])
    ensures t == s.cur && s.threads[t].status == Running ==>
              SameQuantum(Switch(s).threads[t], PutBack(s.threads[t]))
  {}

  /** schedule changes the quantum of no thread but the current one. */
  lemma ScheduleFrame(s: Cpu, t: Tid)
    requires MayChange(s) && t in s.threads
    ensures Schedule(s).threads.Keys == s.threads.Keys
    ensures t == s.cur && s.threads[t].status != Running ==> Schedule(s).threads[t].ticks == s.threads[t].ticks
    ensures t != s.cur ==> SameQuantum(Schedule(s).threads[t], s.threads[t])
    ensures t == s.cur && t != s.idle && s.threads[t].status == Running ==>
              SameQuantum(Schedule(s).threads[t], PutBack(s.threads[t]))
  {
    var u := WithSomeoneReady(s);
    UnblockIdleKeeps(s);
    PickIsReady(u);
    SwitchFrame(u, t);
  }

  /** What one received tick may make of a thread's quantum. */
  predicate Ticked(before: Thread, after: Thread) {
    if before.ticks == 0 then SameQuantum(after, PutBack(before.(ticks := EXPIRED)))
    else
      var used := before.(ticks := before.ticks - 1);
      SameQuantum(after, used) || SameQuantum(after, PutBack(used))
  }

  lemma TickedFuel(before: Thread, after: Thread)
    requires Ticked(before, after) && before.ticks < EXPIRED
    ensures Fuel(after) == if Fuel(before) > 0 then Fuel(before) - 1 else 0
    ensures after.ticks <= if before.ticks > SECOND_TICKS then before.ticks else SECOND_TICKS
    ensures Level(before.priority) <= Level(after.priority)
  {}

  lemma TickTicked(s: Cpu)
    requires Inv(s) && s.cur != s.idle
    ensures s.cur in Tick(s).threads && Ticked(s.threads[s.cur], Tick(s).threads[s.cur])
  {
    var th := s.threads[s.cur];
    if th.ticks == 0 {
      BlockedKeeps(s, th.(ticks := EXPIRED));
      ScheduleFrame(With(s, s.cur, th.(ticks := EXPIRED)), s.cur);
    } else {
      BlockedKeeps(s, th.(ticks := th.ticks - 1));
      ScheduleFrame(With(s, s.cur, th.(ticks := th.ticks - 1)), s.cur);
    }
  }

  /** Every tick a thread receives brings the third level one tick nearer, and
      there it stays. */
  lemma TickDemotes(s: Cpu)
    requires Inv(s) && s.cur != s.idle && s.threads[s.cur].ticks < EXPIRED
    ensures s.cur in Tick(s).threads
    ensures var before, after := s.threads[s.cur], Tick(s).threads[s.cur];
            Fuel(after) == (if Fuel(before) > 0 then Fuel(before) - 1 else 0)
            && after.ticks <= (if before.ticks > SECOND_TICKS then before.ticks else SECOND_TICKS)
            && Level(before.priority) <= Level(after.priority)
  {
    TickTicked(s);
    TickedFuel(s.threads[s.cur], Tick(s).threads[s.cur]);
  }

  /** No event touches the quantum of a thread that neither acts nor is woken. */
  lemma NextFrame(s: Cpu, e: Event, t: Tid)
    requires Inv(s) && Enabled(s, e) && t in s.threads && t != s.cur && e != UnblockEvent(t)
    ensures t in Next(s, e).threads && SameQuantum(Next(s, e).threads[t], s.threads[t])
  {
    match e
    case TickEvent =>
      var th := s.threads[s.cur];
      if th.ticks == 0 {
        BlockedKeeps(s, th.(ticks := EXPIRED));
        ScheduleFrame(With(s, s.cur, th.(ticks := EXPIRED)), t);
      } else {
        BlockedKeeps(s, th.(ticks := th.ticks - 1));
        ScheduleFrame(With(s, s.cur, th.(ticks := th.ticks - 1)), t);
      }
    case BlockEvent(stat) =>
      BlockedKeeps(s, s.threads[s.cur].(status := stat));
      ScheduleFrame(With(s, s.cur, s.threads[s.cur].(status := stat)), t);
    case UnblockEvent(_) =>
    case YieldEvent =>
      var th := s.threads[s.cur].(status := Ready, priority := FIRST_PRIO);
      EnqueueKeeps(s, s.cur, th);
      ScheduleFrame(Enqueue(With(s, s.cur, th), s.cur), t);
    case StartEvent(_, _) =>
    case ExitEvent =>
      BlockedKeeps(s, s.threads[s.cur].(status := Died));
      ScheduleFrame(With(s, s.cur, s.threads[s.cur].(status := Died)), t);
  }

  /** In the run the thread neither blocks, yields nor exits, and nobody wakes
      it; its ticks are counted. */
  predicate JustRuns(s: Cpu, es: seq<Event>, t: Tid)
    requires Inv(s) && Possible(s, es)
    decreases es
  {
    es == [] ||
    (NextKeeps(s, es[0]);
     && es[0] != UnblockEvent(t)
     && (s.cur == t ==> !es[0].BlockEvent? && es[0] != YieldEvent && es[0] != ExitEvent)
     && JustRuns(Next(s, es[0]), es[1..], t))
  }

  function OwnTicks(s: Cpu, es: seq<Event>, t: Tid): nat
    requires Inv(s) && Possible(s, es)
    decreases es
  {
    if es == [] then 0
    else
      NextKeeps(s, es[0]);
      (if s.cur == t && es[0] == TickEvent then 1 else 0) + OwnTicks(Next(s, es[0]), es[1..], t)
  }

  /** A thread that just runs has its fuel used up by its own ticks alone. */
  lemma {:induction false} FuelRunsOut(s: Cpu, es: seq<Event>, t: Tid)
    requires Inv(s) && Possible(s, es) && JustRuns(s, es, t)
    requires t in s.threads && t != s.idle && s.threads[t].ticks < EXPIRED
    ensures t in Run(s, es).threads
    ensures var used, before := OwnTicks(s, es, t), Fuel(s.threads[t]);
            Fuel(Run(s, es).threads[t]) == if used < before then before - used else 0
    decreases es
  {
    if es != [] {
      NextKeeps(s, es[0]);
      if s.cur != t {
        NextFrame(s, es[0], t);
      } else if es[0] == TickEvent {
        TickDemotes(s);
      }
      KeepsIdle(s, es[0]);
      FuelRunsOut(Next(s, es[0]), es[1..], t);
    }
  }

  lemma KeepsIdle(s: Cpu, e: Event)
    requires Inv(s) && Enabled(s, e)
    ensures Next(s, e).idle == s.idle
  {}

  /** With ticks of at most 30 (the largest quantum the kernel hands out) a
      thread that just runs is on the third level after 47 ticks of its own. */
  lemma DemotionBound(s: Cpu, es: seq<Event>, t: Tid)
    requires Inv(s) && Possible(s, es) && JustRuns(s, es, t)
    requires t in s.threads && t != s.idle && s.threads[t].ticks <= FIRST_PRIO
    requires OwnTicks(s, es, t) >= 47
    ensures t in Run(s, es).threads && Level(Run(s, es).threads[t].priority) == 3
  {
    FuelRunsOut(s, es, t);
  }

  /** Every thread but the idle one has at most `b` ticks left. */
  ghost predicate TicksAtMost(s: Cpu, b: nat) {
    forall t :: t in s.threads && t != s.idle ==> s.threads[t].ticks <= b
  }

  lemma TickDomain(s: Cpu)
    requires Inv(s)
    ensures Tick(s).threads.Keys == s.threads.Keys
  {
    var th := s.threads[s.cur];
    if th.ticks == 0 {
      BlockedKeeps(s, th.(ticks := EXPIRED));
      ScheduleFrame(With(s, s.cur, th.(ticks := EXPIRED)), s.cur);
    } else {
      BlockedKeeps(s, th.(ticks := th.ticks - 1));
      ScheduleFrame(With(s, s.cur, th.(ticks := th.ticks - 1)), s.cur);
    }
  }

  /** A thread that gives up the processor keeps its ticks. */
  lemma LeavingTicks(s: Cpu, e: Event)
    requires Inv(s) && Enabled(s, e) && (e.BlockEvent? || e == YieldEvent || e == ExitEvent)
    ensures Next(s, e).threads.Keys == s.threads.Keys
    ensures Next(s, e).threads[s.cur].ticks == s.threads[s.cur].ticks
  {
    match e
    case BlockEvent(stat) =>
      BlockedKeeps(s, s.threads[s.cur].(status := stat));
      ScheduleFrame(With(s, s.cur, s.threads[s.cur].(status := stat)), s.cur);
    case YieldEvent =>
      var th := s.threads[s.cur].(status := Ready, priority := FIRST_PRIO);
      EnqueueKeeps(s, s.cur, th);
      ScheduleFrame(Enqueue(With(s, s.cur, th), s.cur), s.cur);
    case ExitEvent =>
      BlockedKeeps(s, s.threads[s.cur].(status := Died));
      ScheduleFrame(With(s, s.cur, s.threads[s.cur].(status := Died)), s.cur);
  }

  lemma TickTicks(s: Cpu, b: nat)
    requires Inv(s) && TicksAtMost(s, b) && SECOND_TICKS <= b < EXPIRED
    ensures TicksAtMost(Tick(s), b)
  {
    TickDomain(s);
    forall t | t in Tick(s).threads && t != s.idle
      ensures Tick(s).threads[t].ticks <= b
    {
      if t == s.cur { TickDemotes(s); } else { NextFrame(s, TickEvent, t); }
    }
  }

  lemma NextTicks(s: Cpu, e: Event, b: nat)
    requires Inv(s) && Enabled(s, e) && TicksAtMost(s, b) && FIRST_TICKS <= b < EXPIRED
    requires e.StartEvent? ==> e.prio <= b
    ensures TicksAtMost(Next(s, e), b)
  {
    if e == TickEvent {
      TickTicks(s, b);
    } else {
      var u := Next(s, e);
      if e.BlockEvent? || e == YieldEvent || e == ExitEvent {
        LeavingTicks(s, e);
      }
      forall t | t in u.threads && t != s.idle
        ensures u.threads[t].ticks <= b
      {
        if t in s.threads && t != s.cur && e != UnblockEvent(t) {
          NextFrame(s, e, t);
        }
      }
    }
  }

  /** Between steps no quantum exceeds 30, if threads are started with at most
      that. */
  lemma {:induction false} RunTicks(s: Cpu, es: seq<Event>)
    requires Inv(s) && Possible(s, es) && TicksAtMost(s, FIRST_PRIO)
    requires forall i :: 0 <= i < |es| && es[i].StartEvent? ==> es[i].prio <= FIRST_PRIO
    ensures TicksAtMost(Run(s, es), FIRST_PRIO)
    decreases es
  {
    if es != [] {
      NextKeeps(s, es[0]);
      NextTicks(s, es[0], FIRST_PRIO);
      RunTicks(Next(s, es[0]), es[1..]);
    }
  }
}
