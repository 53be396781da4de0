/** Which thread runs after each kernel entry, and where the one that ran waits:
    the scheduling policy, in terms of the ready lists alone. */
module Preemption {
  import opened Sequences
  import opened Scheduling

  function ReadyList(s: Cpu, level: nat): seq<Tid>
    requires 1 <= level <= 3
  {
    if level == 1 then s.first else if level == 2 then s.second else s.third
  }

  /** No thread waits on a smaller level. */
  predicate NoneAbove(s: Cpu, level: nat)
    requires 1 <= level <= 3
  {
    (level > 1 ==> s.first == []) && (level > 2 ==> s.second == [])
  }

  /** Some ready thread has a smaller level than the running one. */
  ghost predicate Outranked(s: Cpu)
    requires s.cur in s.threads
  {
    exists t :: t in s.threads && s.threads[t].status == Ready
                && Level(s.threads[t].priority) < Level(s.threads[s.cur].priority)
  }

  /** The thread whose turn it is: the front of the highest list that has one, and
      the idle thread if none has. */
  ghost predicate Due(s: Cpu, t: Tid) {
    if NothingReady(s) then t == s.idle
    else exists l :: 1 <= l <= 3 && ReadyList(s, l) != [] && NoneAbove(s, l) && t == ReadyList(s, l)[0]
  }

  /** A list without its front if that is the thread whose turn it is. */
  function Rest(s: Cpu, level: nat): seq<Tid>
    requires 1 <= level <= 3
  {
    if ReadyList(s, level) != [] && NoneAbove(s, level) then ReadyList(s, level)[1..] else ReadyList(s, level)
  }

  /** From `s` to `u` the thread whose turn it is begins to run, the one that ran
      goes to the end of the list of `level` (of none if that is 0), and nobody
      else moves or changes. */
  ghost predicate Switched(s: Cpu, u: Cpu, level: nat) {
    && Due(s, u.cur) && u.idle == s.idle && u.threads.Keys == s.threads.Keys
    && (forall l :: 1 <= l <= 3 ==> ReadyList(u, l) == Rest(s, l) + if l == level then [s.cur] else [])
    && (forall t :: t in s.threads && t != s.cur && t != u.cur ==> u.threads[t] == s.threads[t])
    && u.cur in s.threads && u.threads[u.cur].status == Running
    && (u.cur != s.cur ==> SameQuantum(u.threads[u.cur], s.threads[u.cur]))
  }

  lemma OutrankedLists(s: Cpu)
    requires Inv(s)
    ensures Outranked(s) <==> !NoneAbove(s, Level(s.threads[s.cur].priority))
  {
    var level := Level(s.threads[s.cur].priority);
    if Outranked(s) {
      var t :| t in s.threads && s.threads[t].status == Ready && Level(s.threads[t].priority) < level;
      assert ReadyAt(s, t, Level(s.threads[t].priority));
      assert t in ReadyList(s, Level(s.threads[t].priority));
    }
    if !NoneAbove(s, level) {
      var l := if s.first != [] then 1 else 2;
      var t := ReadyList(s, l)[0];
      assert t in ReadyList(s, l);
      assert ReadyAt(s, t, l);
    }
  }

  // ---------- schedule ----------

  /** The list on which schedule puts the current thread back, 0 for none: an idle
      thread that is made ready because nobody else is runs on at once. */
  function BackLevel(s: Cpu): nat
    requires s.cur in s.threads
  {
    var th := s.threads[s.cur];
    if th.status == Running && !(NothingReady(s) && s.cur == s.idle) then Level(PutBack(th).priority) else 0
  }

  /** What schedule makes of the thread that leaves. */
  function Leaving(th: Thread): Thread {
    if th.status == Running then PutBack(th)
    else if th.status == Blocked then th.(priority := 10)
    else th
  }

  lemma SwitchLists(s: Cpu)
    requires s.cur in s.threads && !NothingReady(s) && Pick(s) in s.threads
    ensures forall l :: 1 <= l <= 3 ==>
              ReadyList(Switch(s), l) == Rest(s, l) + if l == BackLevel(s) then [s.cur] else []
  {
    forall l | 1 <= l <= 3
      ensures ReadyList(Switch(s), l) == Rest(s, l) + if l == BackLevel(s) then [s.cur] else []
    {
      AppendNothing(Rest(s, l));
      assert Rest(s, l) == ReadyList(Popped(s), l);
    }
  }

  lemma SwitchThreads(s: Cpu)
    requires s.cur in s.threads && !NothingReady(s) && Pick(s) in s.threads && Pick(s) != s.cur
    ensures var u := Switch(s);
            && u.cur == Pick(s) && u.idle == s.idle
            && u.threads == s.threads[s.cur := Leaving(s.threads[s.cur])][u.cur := s.threads[u.cur].(status := Running)]
  {}

  lemma SwitchIs(s: Cpu)
    requires MayChange(s) && !NothingReady(s) && s.threads[s.cur].status != Ready
    ensures Pick(s) in s.threads && Switch(s).cur != s.cur && Switched(s, Switch(s), BackLevel(s))
    ensures Switch(s).threads[s.cur] == Leaving(s.threads[s.cur])
  {
    PickIsReady(s);
    var l := if s.first != [] then 1 else if s.second != [] then 2 else 3;
    assert ReadyList(s, l) != [] && NoneAbove(s, l) && Pick(s) == ReadyList(s, l)[0];
    SwitchLists(s);
    SwitchThreads(s);
  }

  /** schedule, when the current thread is on no list. */
  lemma ScheduleIs(s: Cpu)
    requires MayChange(s) && s.threads[s.cur].status != Ready
    ensures var u := Schedule(s);
            && Switched(s, u, BackLevel(s)) && (u.cur == s.cur <==> NothingReady(s) && s.cur == s.idle)
            && u.threads[s.cur] ==
               if u.cur == s.cur then s.threads[s.cur].(status := Running) else Leaving(s.threads[s.cur])
  {
    if !NothingReady(s) {
      SwitchIs(s);
    } else if s.cur != s.idle {
      UnblockIdleKeeps(s);
      SwitchIs(UnblockIdle(s));
      assert Rest(UnblockIdle(s), 3) == [];
    } else {
      IdleAgain(s);
    }
  }

  lemma IdleAgain(s: Cpu)
    requires MayChange(s) && s.threads[s.cur].status != Ready && NothingReady(s) && s.cur == s.idle
    ensures Schedule(s) == s.(threads := s.threads[s.cur := s.threads[s.cur].(status := Running)])
  {
    UnblockIdleKeeps(s);
    var w := UnblockIdle(s);
    assert w.third == [s.idle] && w.threads[s.cur].status == Ready;
    assert Pick(w) == s.idle && LeaveCurrent(Popped(w)) == Popped(w);
  }

  // ---------- The timer ----------

  /** A tick of a thread with ticks left: it is preempted exactly if it is of the
      second or third priority and some ready thread has a smaller level, and waits
      at the end of its own list then. */
  ghost predicate CountedDown(s: Cpu, u: Cpu)
    requires s.cur in s.threads && s.threads[s.cur].ticks > 0
  {
    var th := s.threads[s.cur];
    if (th.priority == 20 || th.priority == 10) && Outranked(s) then
      && Switched(s, u, if th.priority == 20 then 2 else 3) && u.cur != s.cur
      && s.cur in u.threads && u.threads[s.cur] == Thread(Ready, th.priority, th.ticks - 1)
    else u == s.(threads := s.threads[s.cur := th.(ticks := th.ticks - 1)])
  }

  /** A tick of a thread without: it goes to the end of the list below, or of the
      third, with a new quantum, unless it is the idle thread and alone. */
  ghost predicate UsedUp(s: Cpu, u: Cpu)
    requires s.cur in s.threads
  {
    var th := s.threads[s.cur];
    if NothingReady(s) && s.cur == s.idle then
      u == s.(threads := s.threads[s.cur := th.(ticks := 0xffff_ffff)])
    else
      && Switched(s, u, if th.priority == 30 then 2 else 3) && u.cur != s.cur
      && s.cur in u.threads
      && u.threads[s.cur] == if th.priority == 30 then Thread(Ready, 20, 15) else Thread(Ready, 10, 10)
  }

  ghost predicate TickDone(s: Cpu, u: Cpu)
    requires s.cur in s.threads
  {
    if s.threads[s.cur].ticks > 0 then CountedDown(s, u) else UsedUp(s, u)
  }

  /** The quantum is a 32-bit word. */
  predicate QuantumFits(s: Cpu)
    requires s.cur in s.threads
  {
    s.threads[s.cur].ticks <= EXPIRED
  }

  /** The quantum of the running thread decides between the two. */
  lemma TickIs(s: Cpu)
    requires Inv(s) && QuantumFits(s)
    ensures TickDone(s, Tick(s))
  {
    if s.threads[s.cur].ticks == 0 { TickUsesUp(s); } else { TickCountsDown(s); }
  }

  lemma TickUsesUp(s: Cpu)
    requires Inv(s) && s.threads[s.cur].ticks == 0
    ensures UsedUp(s, Tick(s))
  {
    var th := s.threads[s.cur].(ticks := EXPIRED);
    BlockedKeeps(s, th);
    TickSwitches(s, th);
  }

  lemma TickCountsDown(s: Cpu)
    requires Inv(s) && QuantumFits(s) && s.threads[s.cur].ticks > 0
    ensures CountedDown(s, Tick(s))
  {
    var th := s.threads[s.cur];
    BlockedKeeps(s, th.(ticks := th.ticks - 1));
    if (th.priority == 20 || th.priority == 10) && Outranked(s) {
      OutrankedLists(s);
      TickCalls(s);
      TickSwitches(s, th.(ticks := th.ticks - 1));
    } else {
      TickCalls(s);
    }
  }

  /** When the handler calls schedule for a thread with ticks left. */
  lemma TickCalls(s: Cpu)
    requires Inv(s) && s.threads[s.cur].ticks > 0
    ensures var th := s.threads[s.cur];
            var v := With(s, s.cur, th.(ticks := th.ticks - 1));
            && MayChange(v)
            && Tick(s) == if (th.priority == 20 || th.priority == 10) && Outranked(s) then Schedule(v) else v
  {
    var th := s.threads[s.cur];
    OutrankedLists(s);
    BlockedKeeps(s, th.(ticks := th.ticks - 1));
  }

  /** schedule after the count has changed. */
  lemma TickSwitches(s: Cpu, th: Thread)
    requires Inv(s) && th.status == Running && Level(th.priority) == Level(s.threads[s.cur].priority)
    requires MayChange(With(s, s.cur, th))
    ensures var u := Schedule(With(s, s.cur, th));
            if NothingReady(s) && s.cur == s.idle then u == With(s, s.cur, th)
            else Switched(s, u, Level(PutBack(th).priority)) && u.cur != s.cur && u.threads[s.cur] == PutBack(th)
  {
    var v := With(s, s.cur, th);
    ScheduleIs(v);
    if NothingReady(s) && s.cur == s.idle {
      IdleAgain(v);
    } else {
      SameTurn(s, v, Schedule(v), BackLevel(v));
    }
  }

  /** Whose turn it is depends on the lists alone. */
  lemma SameTurn(s: Cpu, v: Cpu, u: Cpu, level: nat)
    requires v == s.(threads := v.threads) && Switched(v, u, level) && v.threads.Keys == s.threads.Keys
    requires forall t :: t in s.threads && t != s.cur ==> v.threads[t] == s.threads[t]
    ensures Switched(s, u, level)
  {
    forall l | 1 <= l <= 3
      ensures ReadyList(v, l) == ReadyList(s, l) && Rest(v, l) == Rest(s, l)
    {}
  }

  /** When a ready thread of a smaller level is left waiting by a tick: when a first
      priority thread that has used up its quantum goes to the second list after a
      thread of the third has been chosen, or when the running thread has ticks left
      and a priority that is none of the three. */
  lemma TickOutranked(s: Cpu)
    requires Inv(s) && QuantumFits(s)
    ensures var th := s.threads[s.cur];
            Inv(Tick(s)) && (Outranked(Tick(s)) <==>
              if th.ticks == 0 then th.priority == 30 && s.first == [] && s.second == []
              else th.priority !in {10, 20, 30} && Outranked(s))
  {
    TickKeeps(s);
    TickIs(s);
    OutrankedLists(s);
    OutrankedLists(Tick(s));
    var th, u := s.threads[s.cur], Tick(s);
    if th.ticks == 0 && !(NothingReady(s) && s.cur == s.idle) {
      OutrankedAfter(s, u, if th.priority == 30 then 2 else 3);
    } else if u.cur != s.cur {
      OutrankedAfter(s, u, Level(th.priority));
    }
  }

  /** After a switch only the thread put back can outrank the one that runs. */
  lemma OutrankedAfter(s: Cpu, u: Cpu, level: nat)
    requires Inv(s) && Inv(u) && Switched(s, u, level) && u.cur != s.cur && 2 <= level <= 3
    ensures Outranked(u) <==> level == 2 && s.first == [] && s.second == []
  {
    OutrankedLists(u);
    if NothingReady(s) {
      assert Level(u.threads[u.cur].priority) == 3;
    } else {
      var l :| 1 <= l <= 3 && ReadyList(s, l) != [] && NoneAbove(s, l) && u.cur == ReadyList(s, l)[0];
      assert u.cur in ReadyList(s, l);
      assert ReadyAt(s, u.cur, l);
    }
    assert ReadyList(u, 1) == Rest(s, 1) && ReadyList(u, 2) == Rest(s, 2) + if level == 2 then [s.cur] else [];
  }

  // ---------- The other entries ----------

  /** thread_block: on no list, with the status asked for; a blocked thread falls to
      the third priority. */
  lemma BlockIs(s: Cpu, stat: Status)
    requires Inv(s) && stat in {Blocked, Waiting, Hanging} && (s.cur == s.idle ==> stat == Waiting)
    ensures var u, th := Block(s, stat), s.threads[s.cur];
            && Switched(s, u, 0) && (u.cur == s.cur <==> NothingReady(s) && s.cur == s.idle)
            && (u.cur != s.cur ==>
                  u.threads[s.cur] == Thread(stat, if stat == Blocked then 10 else th.priority, th.ticks))
  {
    var th := s.threads[s.cur].(status := stat);
    BlockedKeeps(s, th);
    var v := With(s, s.cur, th);
    ScheduleIs(v);
    SameTurn(s, v, Schedule(v), 0);
  }

  /** The end of thread_exit. */
  lemma ExitIs(s: Cpu)
    requires Inv(s) && s.cur != s.idle
    ensures var u := Exit(s);
            && Switched(s, u, 0) && u.cur != s.cur && u.threads[s.cur] == s.threads[s.cur].(status := Died)
  {
    var th := s.threads[s.cur].(status := Died);
    BlockedKeeps(s, th);
    var v := With(s, s.cur, th);
    ScheduleIs(v);
    SameTurn(s, v, Schedule(v), 0);
  }

  /** thread_yield: the thread is the last of the first list, with its ticks, and
      the front of that list runs, which is the thread itself if it is alone. */
  lemma YieldIs(s: Cpu)
    requires Inv(s) && s.cur != s.idle
    ensures var u, queue := Yield(s), s.first + [s.cur];
            && u.cur == queue[0] && u.first == queue[1..] && u.second == s.second && u.third == s.third
            && u.idle == s.idle && u.cur in s.threads
            && var left := Thread(Ready, 30, s.threads[s.cur].ticks);
               var next := if u.cur == s.cur then left else s.threads[u.cur];
               u.threads == s.threads[s.cur := left][u.cur := next.(status := Running)]
  {
    var th := s.threads[s.cur].(status := Ready, priority := FIRST_PRIO);
    EnqueueKeeps(s, s.cur, th);
    var v := Enqueue(With(s, s.cur, th), s.cur);
    assert v.first == s.first + [s.cur] && v.first[0] in v.first;
    assert ReadyAt(v, v.first[0], 1);
  }

  /** thread_start: the end of the list of its priority, with that many ticks. */
  lemma StartIs(s: Cpu, t: Tid, prio: nat)
    requires Inv(s) && t !in s.threads
    ensures var u, level := Start(s, t, prio), if prio == 30 then 1 else if prio == 20 then 2 else 3;
            && u.cur == s.cur && u.idle == s.idle && u.threads == s.threads[t := Thread(Ready, prio, prio)]
            && forall l :: 1 <= l <= 3 ==> ReadyList(u, l) == ReadyList(s, l) + if l == level then [t] else []
  {
    forall l | 1 <= l <= 3
      ensures ReadyList(s, l) + [] == ReadyList(s, l)
    {}
  }

  /** thread_unblock: first priority, 25 ticks, and the next to run. */
  lemma UnblockIs(s: Cpu, t: Tid)
    requires Inv(s) && Sleeping(s, t) && t != s.idle
    ensures var u := Unblock(s, t);
            && u == s.(threads := s.threads[t := Thread(Ready, 30, 25)], first := [t] + s.first)
            && Due(u, t)
  {
    var u := Unblock(s, t);
    assert ReadyList(u, 1) != [] && NoneAbove(u, 1) && t == ReadyList(u, 1)[0];
  }

  // ---------- Runs ----------

  /** Every thread's ticks fit in 32 bits. */
  ghost predicate TicksFit(s: Cpu) {
    forall t :: t in s.threads ==> s.threads[t].ticks <= EXPIRED
  }

  lemma NextFits(s: Cpu, e: Event)
    requires Inv(s) && Enabled(s, e) && TicksFit(s) && (e.StartEvent? ==> e.prio <= EXPIRED)
    ensures TicksFit(Next(s, e))
  {
    match e
    case TickEvent => TickIs(s);
    case BlockEvent(stat) => BlockIs(s, stat);
    case UnblockEvent(t) => UnblockIs(s, t);
    case YieldEvent => YieldIs(s);
    case StartEvent(t, prio) => StartIs(s, t, prio);
    case ExitEvent => ExitIs(s);
  }

  lemma {:induction false} RunFits(s: Cpu, es: seq<Event>)
    requires Inv(s) && Possible(s, es) && TicksFit(s)
    requires forall i :: 0 <= i < |es| && es[i].StartEvent? ==> es[i].prio <= EXPIRED
    ensures Inv(Run(s, es)) && TicksFit(Run(s, es))
    decreases es
  {
    if es != [] {
      NextKeeps(s, es[0]);
      NextFits(s, es[0]);
      RunFits(Next(s, es[0]), es[1..]);
    }
  }

  /** Over every run: a tick does what TickDone says, and when it comes to a thread
      of the second or third priority, no ready thread of a smaller level waits
      after it. */
  lemma TickInRun(s: Cpu, es: seq<Event>)
    requires Inv(s) && Possible(s, es) && TicksFit(s)
    requires forall i :: 0 <= i < |es| && es[i].StartEvent? ==> es[i].prio <= EXPIRED
    ensures var v := Run(s, es);
            && Inv(v) && TickDone(v, Tick(v)) && Inv(Tick(v))
            && (v.threads[v.cur].priority in {10, 20} ==> !Outranked(Tick(v)))
  {
    RunFits(s, es);
    var v := Run(s, es);
    TickIs(v);
    TickOutranked(v);
  }
}
