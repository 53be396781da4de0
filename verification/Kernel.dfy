/** The scheduler and the synchronization primitives as the kernel runs them:
    one object whose fields the entries update in place. */
module KernelEntries {
  import opened Options
  import opened Sequences
  import S = Scheduling
  import P = Preemption
  import opened Synchronization

  type Tid = S.Tid

  class Kernel {
    var threads: map<Tid, S.Thread>
    var first: seq<Tid>
    var second: seq<Tid>
    var third: seq<Tid>
    var cur: Tid
    var idle: Tid
    /** thread_all_list. */
    var all: seq<Tid>
    var semas: map<Sid, Sema>
    var locks: map<Sid, Lock>
    var interrupts: bool
    ghost var downing: map<Tid, Sid>
    ghost var depth: map<(Tid, Sid), nat>

    function Processor(): S.Cpu
      reads this
    {
      S.Cpu(threads, first, second, third, cur, idle)
    }

    /** The list of all threads has every thread once. */
    ghost predicate AllListed()
      reads this
    {
      NoDup(all) && forall t :: t in all <==> t in threads
    }

    ghost function State(): System
      reads this
    {
      System(Processor(), semas, locks, downing, depth)
    }

    // ---------- thread.c ----------

    method SetThread(t: Tid, th: S.Thread)
      modifies `threads
      ensures threads == old(threads)[t := th]
    {
      threads := threads[t := th];
    }

    /** list_append on the list of a priority. */
    method ListAppend(priority: nat, t: Tid)
      requires t in threads && threads[t].priority == priority
      requires t !in first && t !in second && t !in third
      modifies `first, `second, `third
      ensures Processor() == S.Enqueue(old(Processor()), t)
    {
      if priority == S.FIRST_PRIO {
        first := first + [t];
      } else if priority == S.SECOND_PRIO {
        second := second + [t];
      } else {
        third := third + [t];
      }
    }

    method ThreadUnblockIdle()
      requires S.MayChange(Processor())
      modifies `threads, `third
      ensures Processor() == S.UnblockIdle(old(Processor()))
    {
      if threads[idle].status != S.Ready {
        assert idle !in third;
        third := [idle] + third;
        SetThread(idle, threads[idle].(status := S.Ready));
      }
    }

    /** The pop of schedule: it takes a thread and never a sentinel. */
    method PopReady() returns (next: Tid)
      requires !S.NothingReady(Processor())
      modifies `first, `second, `third
      ensures next == S.Pick(old(Processor())) && Processor() == S.Popped(old(Processor()))
    {
      if first != [] {
        next := first[0];
        first := first[1..];
      } else if second != [] {
        next := second[0];
        second := second[1..];
      } else {
        next := third[0];
        third := third[1..];
      }
    }

    /** What schedule does with the thread that leaves the processor. */
    method PutCurrentBack()
      requires cur in threads
      requires threads[cur].status == S.Running ==> cur !in first && cur !in second && cur !in third
      modifies `threads, `first, `second, `third
      ensures Processor() == S.LeaveCurrent(old(Processor()))
    {
      var th := threads[cur];
      if th.status == S.Running {
        if th.ticks == S.EXPIRED {
          if th.priority == S.FIRST_PRIO {
            SetThread(cur, S.Thread(S.Ready, S.SECOND_PRIO, S.SECOND_TICKS));
            second := second + [cur];
          } else {
            SetThread(cur, S.Thread(S.Ready, S.THIRD_PRIO, S.THIRD_TICKS));
            third := third + [cur];
          }
        } else {
          if th.priority == S.FIRST_PRIO {
            SetThread(cur, th.(status := S.Ready));
            first := first + [cur];
          } else if th.priority == S.SECOND_PRIO {
            SetThread(cur, th.(status := S.Ready));
            second := second + [cur];
          } else {
            SetThread(cur, th.(status := S.Ready, priority := S.THIRD_PRIO));
            third := third + [cur];
          }
        }
      } else if th.status == S.Blocked {
        SetThread(cur, th.(priority := S.THIRD_PRIO));
      }
    }

    method Schedule()
      requires S.MayChange(Processor()) && !interrupts
      modifies `threads, `first, `second, `third, `cur
      ensures Processor() == S.Schedule(old(Processor()))
      ensures S.Inv(Processor())
    {
      S.ScheduleKeeps(Processor());
      S.UnblockIdleKeeps(Processor());
      if first == [] && second == [] && third == [] {
        ThreadUnblockIdle();
      }
      S.PickIsReady(Processor());
      ghost var ready := Processor();
      var next := PopReady();
      assert threads[cur].status == S.Running ==> cur !in ready.first && cur !in ready.second && cur !in ready.third;
      S.LeaveKeepsThreads(Processor());
      PutCurrentBack();
      SwitchTo(next);
    }

    method SwitchTo(next: Tid)
      requires next in threads
      modifies `threads, `cur
      ensures Processor() == S.Dispatch(old(Processor()), next)
    {
      SetThread(next, threads[next].(status := S.Running));
      cur := next;
    }

    method ThreadBlock(stat: S.Status)
      requires S.Inv(Processor()) && stat in {S.Blocked, S.Waiting, S.Hanging} && (cur == idle ==> stat == S.Waiting)
      modifies `threads, `first, `second, `third, `cur, `interrupts
      ensures Processor() == S.Block(old(Processor()), stat) && S.Inv(Processor()) && !interrupts
    {
      interrupts := false;
      S.BlockedKeeps(Processor(), threads[cur].(status := stat));
      SetThread(cur, threads[cur].(status := stat));
      Schedule();
    }

    /** list_remove on a thread's tag: it leaves the list of waiters it is on, if
        it is on one. */
    method ListRemove(t: Tid)
      modifies `semas
      ensures semas == Unlinked(old(semas), t)
    {
      semas := map s | s in semas :: semas[s].(waiters := Without(semas[s].waiters, t));
    }

    /** thread_unblock, with its ASSERT as a precondition. */
    method ThreadUnblock(t: Tid)
      requires S.Inv(Processor()) && S.Sleeping(Processor(), t) && t != idle
      modifies `threads, `first, `semas
      ensures Processor() == S.Unblock(old(Processor()), t) && S.Inv(Processor())
      ensures semas == Unlinked(old(semas), t)
      ensures old(Ok(State())) ==>
                State() == Moved(old(State()), S.UnblockEvent(t), S.Unblock(old(Processor()), t)) && Ok(State())
    {
      S.UnblockKeeps(Processor(), t);
      if Ok(State()) {
        UnlinkedMoves(State(), t);
        MovedKeeps(State(), S.UnblockEvent(t), S.Unblock(Processor(), t));
      }
      ListRemove(t);
      MakeReady(t);
    }

    method MakeReady(t: Tid)
      requires t in threads
      modifies `threads, `first
      ensures Processor() == S.Unblock(old(Processor()), t)
    {
      first := [t] + first;
      SetThread(t, S.Thread(S.Ready, S.FIRST_PRIO, S.FIRST_TICKS));
    }

    method ThreadYield()
      requires S.Inv(Processor()) && cur != idle
      modifies `threads, `first, `second, `third, `cur, `interrupts
      ensures Processor() == S.Yield(old(Processor())) && S.Inv(Processor()) && !interrupts
    {
      interrupts := false;
      assert cur !in first;
      var th := threads[cur].(status := S.Ready, priority := S.FIRST_PRIO);
      S.EnqueueKeeps(Processor(), cur, th);
      first := first + [cur];
      SetThread(cur, th);
      Schedule();
    }

    /** thread_start for a thread in a page just allocated; the ASSERTs on the list
        of all threads and on the ready lists hold. */
    method ThreadStart(t: Tid, prio: nat)
      requires S.Inv(Processor()) && AllListed() && t !in threads
      modifies `threads, `first, `second, `third, `all
      ensures Processor() == S.Start(old(Processor()), t, prio) && S.Inv(Processor())
      ensures AllListed() && all == old(all) + [t]
    {
      S.StartKeeps(Processor(), t, prio);
      assert t !in all;
      AppendMember(all, t);
      all := all + [t];
      SetThread(t, S.Thread(S.Ready, prio, prio));
      assert !S.ReadyAt(old(Processor()), t, 1) && !S.ReadyAt(old(Processor()), t, 2) && !S.ReadyAt(old(Processor()), t, 3);
      ListAppend(prio, t);
    }

    // ---------- timer.c ----------

    /** The handler runs with interrupts off. */
    method TimerHandler()
      requires S.Inv(Processor()) && !interrupts
      modifies `threads, `first, `second, `third, `cur
      ensures Processor() == S.Tick(old(Processor())) && S.Inv(Processor())
      ensures old(P.QuantumFits(Processor())) ==> P.TickDone(old(Processor()), Processor())
    {
      ghost var s := Processor();
      Count();
      if P.QuantumFits(s) { P.TickIs(s); }
    }

    /** The body of the handler: the running thread's ticks, and schedule if its
        quantum is used up or a list above its own has a thread. */
    method Count()
      requires S.Inv(Processor()) && !interrupts
      modifies `threads, `first, `second, `third, `cur
      ensures Processor() == S.Tick(old(Processor())) && S.Inv(Processor())
    {
      S.TickKeeps(Processor());
      var th := threads[cur];
      if th.ticks == 0 {
        S.BlockedKeeps(Processor(), th.(ticks := S.EXPIRED));
        SetThread(cur, th.(ticks := S.EXPIRED));
        Schedule();
      } else {
        S.BlockedKeeps(Processor(), th.(ticks := th.ticks - 1));
        SetThread(cur, th.(ticks := th.ticks - 1));
        if th.priority == S.SECOND_PRIO {
          if first != [] {
            Schedule();
          }
        } else if th.priority == S.THIRD_PRIO {
          if first != [] || second != [] {
            Schedule();
          }
        }
      }
    }

    // ---------- sync.c ----------

    method SetSema(s: Sid, m: Sema)
      modifies `semas
      ensures semas == old(semas)[s := m]
    {
      semas := semas[s := m];
    }

    /** One test of the loop of sema_down: `done` tells whether the thread has
        left the loop; if not, it has been switched away from. */
    method SemaDown(s: Sid) returns (done: bool)
      requires Ok(State()) && cur != idle && s in semas
      requires cur in downing ==> downing[cur] == s
      modifies `threads, `first, `second, `third, `cur, `interrupts, `semas, `downing
      ensures State() == Down(old(State()), s) && done == (old(semas[s].value) > 0)
      ensures semas[s].waiters == old(semas[s].waiters) + if done then [] else [old(cur)]
      ensures interrupts == (old(interrupts) && done)
    {
      if semas[s].value == 0 {
        assert SemaOk(State(), s) && cur !in semas[s].waiters;
        JoinWaiters(s);
        ThreadBlock(S.Blocked);
        done := false;
      } else {
        var m := semas[s];
        SetSema(s, m.(value := m.value - 1, downs := m.downs + 1));
        downing := downing - {cur};
        done := true;
      }
    }

    /** A thread that is not yet among the waiters goes to their end. */
    method JoinWaiters(s: Sid)
      requires s in semas
      modifies `semas, `downing
      ensures State() == Joined(old(State()), s, old(Processor()))
    {
      var m := semas[s];
      if cur !in m.waiters {
        SetSema(s, m.(waiters := m.waiters + [cur]));
      }
      downing := downing[cur := s];
    }

    method SemaUp(s: Sid)
      requires SemasOk(State()) && s in semas
      modifies `threads, `first, `semas
      ensures old(semas[s].waiters) != [] ==> S.Sleeping(old(Processor()), old(semas[s].waiters[0]))
      ensures State() == Up(old(State()), s)
      ensures semas[s].waiters == if old(semas[s].waiters) == [] then [] else old(semas[s].waiters)[1..]
    {
      WaiterSleeps(State(), s);
      ghost var st := State();
      PopAndWake(s);
      UpIs(st, s, Processor(), semas);
      Raise(s);
    }

    method Raise(s: Sid)
      requires s in semas
      modifies `semas
      ensures var m := old(semas[s]);
              semas == old(semas)[s := m.(value := (m.value + 1) % 256, ups := m.ups + 1)]
    {
      var m := semas[s];
      SetSema(s, m.(value := (m.value + 1) % 256, ups := m.ups + 1));
    }

    /** thread_unblock of the thread popped from the waiters, if there is one. */
    method PopAndWake(s: Sid)
      requires SemasOk(State()) && s in semas
      requires semas[s].waiters != [] ==> S.Sleeping(Processor(), semas[s].waiters[0]) && semas[s].waiters[0] != idle
      modifies `threads, `first, `semas
      ensures PoppedWoken(old(State()), s, Processor(), semas)
    {
      var w := semas[s].waiters;
      if w != [] {
        PoppedUnlinked(State(), s);
        SetSema(s, semas[s].(waiters := w[1..]));
        ThreadUnblock(w[0]);
      }
    }

    /** One pass of lock_acquire: `done` tells whether the thread has the lock.
        The ASSERT on the repeat count holds. */
    method LockAcquire(l: Sid) returns (done: bool)
      requires Ok(State()) && cur != idle && l in locks
      requires cur in downing ==> downing[cur] == l
      modifies this
      ensures State() == Acquire(old(State()), l) && Ok(State())
      ensures done ==> State().cpu == old(State()).cpu && locks[l].holder == Some(cur)
      ensures done <==> old(locks[l].holder == Some(cur) || semas[l].value > 0)
      ensures interrupts == (old(interrupts) && done)
    {
      AcquireKeeps(State(), l);
      if locks[l].holder != Some(cur) {
        LockAsserts(State(), l);
        done := SemaDown(l);
        if done {
          assert locks[l].repeats == 0;
          Own(l);
        }
      } else {
        Nest(l);
        done := true;
      }
    }

    method Own(l: Sid)
      modifies `locks, `depth
      ensures State() == Owned(old(State()), l)
    {
      depth := depth[(cur, l) := Depth(State(), cur, l) + 1];
      locks := locks[l := Lock(Some(cur), 1)];
    }

    method Nest(l: Sid)
      requires l in locks && locks[l].holder == Some(cur)
      modifies `locks, `depth
      ensures State() == Nested(old(State()), l)
    {
      depth := depth[(cur, l) := Depth(State(), cur, l) + 1];
      locks := locks[l := Lock(Some(cur), locks[l].repeats + 1)];
    }

    method Disown(l: Sid, k: Lock)
      requires SemasOk(State()) && l in locks && Depth(State(), cur, l) > 0
      modifies `locks, `depth
      ensures State() == Disowned(old(State()), l, k) && SemasOk(State())
    {
      depth := depth[(cur, l) := Depth(State(), cur, l) - 1];
      locks := locks[l := k];
      SemasUntouched(old(State()), State());
    }

    /** lock_release, with its ASSERTs.  Interrupts come back as they were if and
        only if they were off or this was the outermost release: a nested one
        returns with interrupts off. */
    method LockRelease(l: Sid)
      requires Ok(State()) && l in locks && Depth(State(), cur, l) > 0
      modifies `threads, `first, `semas, `locks, `depth, `interrupts
      ensures old(semas[l].waiters) != [] ==> S.Sleeping(old(Processor()), old(semas[l].waiters[0]))
      ensures State() == Release(old(State()), l) && Ok(State())
      ensures interrupts == (old(interrupts) && old(locks[l].repeats) <= 1)
    {
      var before := interrupts;
      interrupts := false;
      ReleaseKeeps(State(), l);
      LockAsserts(State(), l);
      assert locks[l].holder == Some(cur);
      if locks[l].repeats > 1 {
        Disown(l, Lock(locks[l].holder, locks[l].repeats - 1));
        return;
      }
      assert locks[l].repeats == 1;
      Disown(l, Lock(None, 0));
      SemaUp(l);
      interrupts := before;
    }

    /** thread_exit, for a thread whose parent's semaphore is `parent`. */
    method ThreadExit(parent: Option<Sid>)
      requires Ok(State()) && cur != idle && cur !in downing
      requires parent.Some? ==> parent.value in semas && parent.value !in locks
      modifies `threads, `first, `second, `third, `cur, `semas, `interrupts
      ensures State() == Die(old(State()), parent) && Ok(State()) && !interrupts
    {
      interrupts := false;
      DieKeeps(State(), parent);
      if parent.Some? {
        UpKeeps(State(), parent.value);
        SemaUp(parent.value);
      }
      Leave();
    }

    method Leave()
      requires S.Inv(Processor()) && cur != idle && !interrupts
      modifies `threads, `first, `second, `third, `cur
      ensures Processor() == S.Exit(old(Processor())) && S.Inv(Processor())
    {
      S.BlockedKeeps(Processor(), threads[cur].(status := S.Died));
      SetThread(cur, threads[cur].(status := S.Died));
      Schedule();
    }
  }
}
