/**
 Who becomes ready, and in which order: do_unblock_one, do_unblock_all and the release of a
 lock by the priorities of the waiters, do_spawn by its new task, and do_waitpid, which keeps
 its caller out of the ready queue until the task it waits for has ended.
 */
module Waking {
  import opened Basics
  import opened KernelModel
  import opened KernelSteps
  import opened Sync
  import opened Mutex
  import opened LockTable

  // ----------------------------------------------------------------- do_unblock_one and do_unblock_all

  /** Place k ends the first stretch of ascending priorities. */
  predicate EndOfStretch(s: State, ids: seq<nat>, k: nat) {
    && k < |ids| && (forall j :: 0 < j <= k ==> Priority(s, ids[j - 1]) < Priority(s, ids[j]))
    && (k + 1 < |ids| ==> Priority(s, ids[k]) >= Priority(s, ids[k + 1]))
  }

  lemma {:induction false} PickIsEnd(s: State, ids: seq<nat>, k: nat, from: nat)
    requires EndOfStretch(s, ids, k) && from <= k
    ensures Pick(s, ids, from) == k
    decreases k - from
  {
    if from == k {
    } else {
      var next := from + 1;
      assert Priority(s, ids[next - 1]) < Priority(s, ids[next]);
      PickIsEnd(s, ids, k, next);
    }
  }

  /** do_unblock_one moves exactly the waiter that ends the first ascending stretch. */
  lemma UnblockOneMoves(s: State, q: QueueId, k: nat)
    requires Formed(s) && q != ReadyQ && EndOfStretch(s, Q(s, q), k)
    ensures var t, r := Q(s, q)[k], UnblockOne(s, q);
      && t < |s.task|
      && r == s.(task := s.task[t := s.task[t].(status := Ready, home := Some(ReadyQ))], queue := r.queue)
      && Q(r, q) == Q(s, q)[..k] + Q(s, q)[k + 1..] && Q(r, ReadyQ) == Q(s, ReadyQ) + [t]
      && forall p :: p != q && p != ReadyQ ==> Q(r, p) == Q(s, p)
  {
    PickIsEnd(s, Q(s, q), k, 0);
    MoveTask(s, q, k);
  }

  /** The waiters in the order in which they become ready: each time the end of the first ascending stretch. */
  function ByStretches(s: State, ids: seq<nat>): seq<nat>
    decreases |ids|
  {
    if ids == [] then [] else
      var k := Pick(s, ids);
      [ids[k]] + ByStretches(s, Without(ids, k))
  }

  lemma {:induction false} SamePick(s: State, m: State, ids: seq<nat>, from: nat)
    requires from < |ids| && forall t: nat :: Priority(m, t) == Priority(s, t)
    ensures Pick(m, ids, from) == Pick(s, ids, from)
    decreases |ids| - from
  {
    if from + 1 == |ids| {
    } else {
      SamePick(s, m, ids, from + 1);
    }
  }

  lemma {:induction false} SameStretches(s: State, m: State, ids: seq<nat>)
    requires forall t: nat :: Priority(m, t) == Priority(s, t)
    ensures ByStretches(m, ids) == ByStretches(s, ids)
    decreases |ids|
  {
    if ids == [] {
    } else {
      SamePick(s, m, ids, 0);
      SameStretches(s, m, Without(ids, Pick(s, ids)));
    }
  }

  lemma WokenPriorities(s: State, r: State)
    requires Woken(s, r)
    ensures forall t: nat :: Priority(r, t) == Priority(s, t)
  {
    forall t: nat ensures Priority(r, t) == Priority(s, t) {
      assert t < |s.task| ==> SameIdentity(s.task[t], r.task[t]);
    }
  }

  /** do_unblock_all readies the whole queue, stretch by stretch. */
  lemma {:induction false} UnblockAllOrder(s: State, q: QueueId)
    requires Formed(s) && q != ReadyQ
    ensures Q(UnblockAll(s, q), ReadyQ) == Q(s, ReadyQ) + ByStretches(s, Q(s, q))
    decreases |Q(s, q)|
  {
    if Q(s, q) == [] {
    } else {
      var k, m := Pick(s, Q(s, q)), UnblockOne(s, q);
      UnblockStep(s, q);
      UnblockAllOrder(m, q);
      WokenPriorities(s, m);
      SameStretches(s, m, Q(m, q));
      assert Q(m, q) == Without(Q(s, q), k) && Q(m, ReadyQ) == Q(s, ReadyQ) + [Q(s, q)[k]];
      Regroup(Q(s, ReadyQ), Q(s, q)[k], ByStretches(s, Q(m, q)));
    }
  }

  lemma ReleaseIs(s: State, l: nat) returns (w: State)
    requires Formed(s) && l < |s.lock| && s.lock[l]
    ensures Formed(w) && Release(s, l) == UnblockAll(w, LockQ(l)) && Q(w, ReadyQ) == Q(s, ReadyQ)
    ensures Q(w, LockQ(l)) == Q(s, LockQ(l)) && forall t: nat :: Priority(w, t) == Priority(s, t)
  {
    var u := s.(lock := s.lock[l := false]);
    SameHomesFormed(s, u);
    w := WipeWaiters(u, l);
    WokenPriorities(u, w);
    assert forall t: nat :: Priority(u, t) == Priority(s, t);
  }

  /** do_mutex_lock_release readies everybody who waits for the lock in that order. */
  lemma ReleaseOrder(s: State, l: nat)
    requires Formed(s) && l < |s.lock| && s.lock[l]
    ensures Q(Release(s, l), ReadyQ) == Q(s, ReadyQ) + ByStretches(s, Q(s, LockQ(l)))
  {
    var w := ReleaseIs(s, l);
    UnblockAllOrder(w, LockQ(l));
    SameStretches(s, w, Q(s, LockQ(l)));
  }

  // ----------------------------------------------------------------- do_spawn

  lemma SpawnIs(s: State, i: nat)
    requires Placement(s) && i < NUM_MAX_TASK && i == FreeEntry(s.task)
    ensures ReadyQ in s.queue && s.task[i].home == None
    ensures SpawnTask(s) == WithLast(WithTask(s.(pid := s.pid + 1), i, Newborn(s.pid + 1)), ReadyQ, i)
  {
    assert Fits(s, i);
    SpawnKeeps(s, i);
  }

  /** Entry i became a CREATED task of priority 4 with the next process id, last in the ready queue. */
  ghost predicate Born(s: State, i: nat, r: State) {
    && i < |s.task| == |r.task| && r.pid == s.pid + 1 && Q(r, ReadyQ) == Q(s, ReadyQ) + [i]
    && r.task[i] == Task(Created, 4, 0, s.pid + 1, NoLocks(), ToUser, Some(ReadyQ))
    && (forall t :: 0 <= t < |s.task| && t != i ==> r.task[t] == s.task[t])
    && forall q :: q != ReadyQ ==> Q(r, q) == Q(s, q)
  }

  function NoLocks(): seq<Option<nat>> {
    seq(LOCK_MAX_NUM, _ => None)
  }

  lemma BornIs(s: State, i: nat)
    requires ReadyQ in s.queue && i < |s.task|
    ensures Born(s, i, WithLast(WithTask(s.(pid := s.pid + 1), i, Newborn(s.pid + 1)), ReadyQ, i))
  {
    assert Newborn(s.pid + 1).slots == NoLocks();
  }

  /** do_spawn: the new task is born in the first free entry. */
  lemma SpawnBirth(s: State, i: nat)
    requires Placement(s) && i < NUM_MAX_TASK && s.task[i].status == Exited
    requires forall j :: 0 <= j < i ==> s.task[j].status != Exited
    ensures Born(s, i, SpawnTask(s))
  {
    SpawnIs(s, i);
    BornIs(s, i);
  }

  /** With no free entry only the process id is used up. */
  lemma SpawnFails(s: State)
    requires Placement(s) && forall j :: 0 <= j < NUM_MAX_TASK ==> s.task[j].status != Exited
    ensures SpawnTask(s) == s.(pid := s.pid + 1)
  {
  }

  // ----------------------------------------------------------------- every system call

  function FirstOf(ids: seq<nat>): seq<nat> {
    if ids == [] then [] else [ids[0]]
  }

  function FreeEntries(task: seq<Task>): seq<nat>
    requires |task| == NUM_MAX_TASK + 1
  {
    if FreeEntry(task) == NUM_MAX_TASK then [] else [FreeEntry(task)]
  }

  /** Whom a call makes ready, in order. */
  function Readied(s: State, e: Event): seq<nat>
    requires |s.task| == NUM_MAX_TASK + 1 && Allowed(s, e)
  {
    match e
    case WakeOne(q) => FirstOf(ByStretches(s, Q(s, q)))
    case WakeEvery(q) => ByStretches(s, Q(s, q))
    case Unlock(l) => if s.lock[l] then ByStretches(s, Q(s, LockQ(l))) else []
    case CondWait(l, _) => if s.lock[l] then ByStretches(s, Q(s, LockQ(l))) else []
    case Signal(c) => FirstOf(Q(s, CondQ(c)))
    case Broadcast(c) => Q(s, CondQ(c))
    case Up(x) => FirstOf(Q(s, SemQ(x)))
    case Arrive(b) => if s.barrier[b].missing == 1 then Q(s, BarrierQ(b)) else []
    case Spawn => FreeEntries(s.task)
    case _ => []
  }

  lemma WakeOneReadies(s: State, q: QueueId)
    requires Formed(s) && q != ReadyQ
    ensures Q(UnblockOne(s, q), ReadyQ) == Q(s, ReadyQ) + FirstOf(ByStretches(s, Q(s, q)))
  {
    EmptyEnds(Q(s, ReadyQ));
  }

  lemma WakeFirstReadies(s: State, q: QueueId)
    requires Formed(s) && q != ReadyQ
    ensures Q(WakeFirst(s, q), ReadyQ) == Q(s, ReadyQ) + FirstOf(Q(s, q))
  {
    EmptyEnds(Q(s, ReadyQ));
  }

  lemma ReleaseReadies(s: State, l: nat)
    requires Formed(s) && l < |s.lock|
    ensures Q(Release(s, l), ReadyQ) == Q(s, ReadyQ) + if s.lock[l] then ByStretches(s, Q(s, LockQ(l))) else []
  {
    EmptyEnds(Q(s, ReadyQ));
    if s.lock[l] {
      ReleaseOrder(s, l);
    }
  }

  lemma CondParked(s: State, l: nat, c: nat) returns (p: State)
    requires Placement(s) && s.current < NUM_MAX_TASK && s.task[s.current].status == Running && l < |s.lock|
    requires CondQ(c) in s.queue
    ensures Formed(p) && p.lock == s.lock && WaitOnCondition(s, l, c) == Release(p, l)
    ensures Q(p, ReadyQ) == Q(s, ReadyQ) && Q(p, LockQ(l)) == Q(s, LockQ(l))
    ensures forall t: nat :: Priority(p, t) == Priority(s, t)
  {
    OnlyCurrentRuns(s);
    p := Park(SetResume(s, Acquiring(l)), s.current, CondQ(c), Blocked);
  }

  lemma CondWaitReadies(s: State, l: nat, c: nat)
    requires Placement(s) && s.current < NUM_MAX_TASK && s.task[s.current].status == Running && l < |s.lock|
    requires CondQ(c) in s.queue
    ensures Q(WaitOnCondition(s, l, c), ReadyQ)
         == Q(s, ReadyQ) + if s.lock[l] then ByStretches(s, Q(s, LockQ(l))) else []
  {
    var p := CondParked(s, l, c);
    ReleaseReadies(p, l);
    SameStretches(s, p, Q(s, LockQ(l)));
  }

  lemma SpawnReadies(s: State)
    requires Placement(s)
    ensures Q(SpawnTask(s), ReadyQ) == Q(s, ReadyQ) + FreeEntries(s.task)
  {
    EmptyEnds(Q(s, ReadyQ));
    if FreeEntry(s.task) < NUM_MAX_TASK {
      SpawnIs(s, FreeEntry(s.task));
    }
  }

  lemma UpReadies(s: State, x: nat)
    requires Placement(s) && x < |s.sem|
    ensures Q(SemUp(s, x), ReadyQ) == Q(s, ReadyQ) + FirstOf(Q(s, SemQ(x)))
  {
    WakeFirstReadies(s, SemQ(x));
    EmptyEnds(Q(s, ReadyQ));
  }

  lemma EarlyReadies(s: State, b: nat)
    requires Placement(s) && s.current < NUM_MAX_TASK && s.task[s.current].status == Running && b < |s.barrier|
    requires s.barrier[b].missing != 1
    ensures Q(BarrierWait(s, b), ReadyQ) == Q(s, ReadyQ)
  {
    OnlyCurrentRuns(s);
  }

  lemma ArriveReadies(s: State, b: nat)
    requires Placement(s) && s.current < NUM_MAX_TASK && s.task[s.current].status == Running && b < |s.barrier|
    ensures Q(BarrierWait(s, b), ReadyQ) == Q(s, ReadyQ) + if s.barrier[b].missing == 1 then Q(s, BarrierQ(b)) else []
  {
    if s.barrier[b].missing == 1 {
      ArriveQueue(s, b);
    } else {
      EarlyReadies(s, b);
      EmptyEnds(Q(s, ReadyQ));
    }
  }

  /** The calls that make nobody ready. */
  predicate Quiet(e: Event) {
    e.Timer? || e.SleepFor? || e.BlockOn? || e.WaitPid? || e.Lock? || e.Retry? || e.Down? || e.Init?
  }

  lemma QuietReadies(s: State, e: Event)
    requires Placement(s) && Allowed(s, e) && Quiet(e)
    ensures Q(Act(s, e), ReadyQ) == Q(s, ReadyQ) + Readied(s, e)
  {
    QuietIs(s, e);
    EmptyEnds(Q(s, ReadyQ));
  }

  lemma QuietIs(s: State, e: Event)
    requires Placement(s) && Allowed(s, e) && Quiet(e)
    ensures Q(Act(s, e), ReadyQ) == Q(s, ReadyQ) && Readied(s, e) == []
  {
    OnlyCurrentRuns(s);
  }

  /** What each call other than do_exit and do_kill appends to the ready queue. */
  lemma ActReadies(s: State, e: Event)
    requires Placement(s) && Allowed(s, e) && !e.Exit? && !e.Kill?
    ensures Q(Act(s, e), ReadyQ) == Q(s, ReadyQ) + Readied(s, e)
  {
    match e
    case WakeOne(q) => WakeOneReadies(s, q);
    case WakeEvery(q) => UnblockAllOrder(s, q);
    case Unlock(l) => ReleaseReadies(s, l);
    case CondWait(l, c) => CondWaitReadies(s, l, c);
    case Signal(c) => WakeFirstReadies(s, CondQ(c));
    case Broadcast(c) => WakeAllOrder(s, CondQ(c));
    case Up(x) => UpReadies(s, x);
    case Arrive(b) => ArriveReadies(s, b);
    case Spawn => SpawnReadies(s);
    case _ => QuietReadies(s, e);
  }

  lemma WaitBlocks(s: State, l: nat, c: nat)
    requires Placement(s) && s.current < NUM_MAX_TASK && s.task[s.current].status == Running && l < |s.lock|
    requires CondQ(c) in s.queue
    ensures WaitOnCondition(s, l, c).task[s.current].status == Blocked
  {
    OnlyCurrentRuns(s);
    WaitServes(s, l, c);
    var r := WaitOnCondition(s, l, c);
    assert s.current == Q(r, CondQ(c))[|Q(s, CondQ(c))|];
    assert Lists(r, CondQ(c)) && Fits(r, s.current);
  }

  lemma LetGoStays(x: State, i: nat)
    requires Formed(x) && i < NUM_MAX_TASK && x.task[i].home == None
    ensures WakeAll(ReleaseSlots(x, i), WaitQ(i)).task[i] == x.task[i]
  {
    FinishWakes(x, i);
    assert SameIdentity(x.task[i], WakeAll(ReleaseSlots(x, i), WaitQ(i)).task[i]);
  }

  lemma KillEnds(s: State, n: nat)
    requires Placement(s) && s.current < NUM_MAX_TASK && s.task[s.current].status == Running
    requires s.task[s.current].pid == n
    ensures KillTask(s, n).task[s.current].status == Exited
  {
    OnlyCurrentRuns(s);
    FoundAlive(s, s.current, n);
    LetGoStays(SetStatus(s, s.current, Exited), s.current);
  }

  /** A call goes through the scheduler exactly when it is the timer's or its caller cannot go on. */
  lemma YieldsExact(s: State, e: Event)
    requires Placement(s) && Allowed(s, e)
    ensures Yields(s, e) <==> e == Timer || Act(s, e).task[s.current].status != Running
  {
    OnlyCurrentRuns(s);
    if !Yields(s, e) {
      CallerKeepsRunning(s, e);
    } else if e.CondWait? {
      WaitBlocks(s, e.lock, e.cond);
    } else if e.Kill? {
      KillEnds(s, e.pid);
    }
  }

  // ----------------------------------------------------------------- do_waitpid

  /** Task i is alive and has this process id. */
  predicate Alive(s: State, i: nat, pid: nat) {
    i < NUM_MAX_TASK && i < |s.task| && s.task[i].status != Exited && s.task[i].pid == pid
  }

  lemma FoundAlive(s: State, i: nat, pid: nat)
    requires Placement(s) && Alive(s, i, pid)
    ensures FindPid(s.task, pid) == i
  {
  }

  /** The queue of those who wait for task i, after a call. */
  function Waiters(s: State, e: Event, i: nat): seq<nat> {
    if Ends(s, e) == Some(i) then []
    else if e.WaitPid? && Alive(s, i, e.pid) then Q(s, WaitQ(i)) + [s.current]
    else Q(s, WaitQ(i))
  }

  lemma FinishWaiters(x: State, t: nat, i: nat)
    requires Formed(x) && t < NUM_MAX_TASK
    ensures Q(WakeAll(ReleaseSlots(x, t), WaitQ(t)), WaitQ(i)) == if i == t then [] else Q(x, WaitQ(i))
  {
    ReleaseSlotsFrame(x, t, 0, WaitQ(i));
    if i != t {
      WakeAllFrame(ReleaseSlots(x, t), WaitQ(t), WaitQ(i));
    }
  }

  lemma ExitWaiters(s: State, i: nat)
    requires Placement(s) && s.current < NUM_MAX_TASK && s.task[s.current].status == Running
    ensures Q(ExitTask(s), WaitQ(i)) == if i == s.current then [] else Q(s, WaitQ(i))
  {
    FinishWaiters(s, s.current, i);
  }

  lemma DetachWaiters(s: State, t: nat, i: nat)
    requires Placement(s) && t < NUM_MAX_TASK && (s.task[t].status == Blocked ==> OnRegisteredLock(s.task[t]))
    ensures Q(Detach(s, t), WaitQ(i)) == Q(s, WaitQ(i))
  {
    assert Fits(s, t) && AtHome(s, t);
    if s.task[t].status == Blocked {
      LeaveLocksEffect(s, t, 0);
    }
  }

  lemma KilledWaiters(s: State, t: nat, i: nat)
    requires Placement(s) && t < NUM_MAX_TASK && (s.task[t].status == Blocked ==> OnRegisteredLock(s.task[t]))
    ensures Q(WakeAll(ReleaseSlots(SetStatus(Detach(s, t), t, Exited), t), WaitQ(t)), WaitQ(i))
         == if i == t then [] else Q(s, WaitQ(i))
  {
    DetachWaiters(s, t, i);
    FinishWaiters(SetStatus(Detach(s, t), t, Exited), t, i);
  }

  lemma KillSomebody(s: State, n: nat, t: nat, i: nat)
    requires Placement(s) && KillReaches(s, n) && Ends(s, Kill(n)) == Some(t)
    ensures Q(KillTask(s, n), WaitQ(i)) == if i == t then [] else Q(s, WaitQ(i))
  {
    KilledWaiters(s, t, i);
  }

  lemma KillWaiters(s: State, n: nat, i: nat)
    requires Placement(s) && KillReaches(s, n)
    ensures Q(KillTask(s, n), WaitQ(i)) == if Ends(s, Kill(n)) == Some(i) then [] else Q(s, WaitQ(i))
  {
    if Ends(s, Kill(n)) == None {
      KillNobody(s, n);
    } else {
      KillSomebody(s, n, Ends(s, Kill(n)).value, i);
    }
  }

  lemma WaitPidWaiters(s: State, n: nat, i: nat)
    requires Placement(s) && Allowed(s, WaitPid(n))
    ensures Q(Act(s, WaitPid(n)), WaitQ(i)) == Waiters(s, WaitPid(n), i)
  {
    OnlyCurrentRuns(s);
    if Alive(s, i, n) {
      FoundAlive(s, i, n);
    }
  }

  lemma EndWaiters(s: State, e: Event, i: nat)
    requires Placement(s) && Allowed(s, e) && (e.Kill? ==> KillReaches(s, e.pid)) && (e.Exit? || e.Kill?)
    ensures Q(Act(s, e), WaitQ(i)) == if Ends(s, e) == Some(i) then [] else Q(s, WaitQ(i))
  {
    match e
    case Exit => ExitWaiters(s, i);
    case Kill(n) => KillWaiters(s, n, i);
  }

  lemma ActWaiters(s: State, e: Event, i: nat)
    requires Placement(s) && Allowed(s, e) && (e.Kill? ==> KillReaches(s, e.pid)) && Proper(e, WaitQ(i))
    ensures Q(Act(s, e), WaitQ(i)) == Waiters(s, e, i)
  {
    if e.WaitPid? {
      WaitPidWaiters(s, e.pid, i);
    } else if e.Exit? || e.Kill? {
      EndWaiters(s, e, i);
    } else {
      UntouchedWaiters(s, e, i);
      ActFrame(s, e, WaitQ(i));
    }
  }

  lemma UntouchedWaiters(s: State, e: Event, i: nat)
    requires Allowed(s, e) && Proper(e, WaitQ(i)) && !e.WaitPid? && !e.Exit? && !e.Kill?
    ensures !Touches(s, e, WaitQ(i)) && Waiters(s, e, i) == Q(s, WaitQ(i))
  {
  }

  lemma WaitersInRun(states: seq<State>, events: seq<(Event, Clock)>, i: nat, n: nat)
    requires Run(states, events) && n < |events| && Proper(events[n].0, WaitQ(i))
    ensures Q(states[n + 1], WaitQ(i)) == Waiters(states[n], events[n].0, i)
  {
    NextInRun(states, events, n);
    ActWaiters(states[n], events[n].0, i);
    StepAfterAct(states[n], events[n].0, events[n].1, WaitQ(i));
  }

  /** The task ended at one of the steps from a to n. */
  ghost predicate EndedBetween(states: seq<State>, events: seq<(Event, Clock)>, i: nat, a: nat, n: nat)
    requires n <= |events| < |states|
  {
    exists m :: a < m < n && Ends(states[m], events[m].0) == Some(i)
  }

  /**
   do_waitpid keeps its promise: its caller stays in the queue of the task it waits for, and
   with that BLOCKED, until that task has exited or was killed.
   */
  lemma {:induction false} WaitsUntilEnd(states: seq<State>, events: seq<(Event, Clock)>, i: nat, a: nat, n: nat)
    requires Run(states, events) && a < n <= |events| && events[a].0.WaitPid? && Alive(states[a], i, events[a].0.pid)
    requires forall k :: a <= k < n ==> Proper(events[k].0, WaitQ(i))
    ensures states[a].current in Q(states[n], WaitQ(i)) || EndedBetween(states, events, i, a, n)
  {
    WaitersInRun(states, events, i, n - 1);
    if n == a + 1 {
    } else {
      WaitsUntilEnd(states, events, i, a, n - 1);
      if Ends(states[n - 1], events[n - 1].0) == Some(i) {
        assert EndedBetween(states, events, i, a, n);
      }
    }
  }

  lemma EndOf(s: State, e: Event, i: nat) returns (m: State)
    requires Placement(s) && Allowed(s, e) && (e.Kill? ==> KillReaches(s, e.pid)) && Ends(s, e) == Some(i)
    ensures Formed(m) && Q(m, WaitQ(i)) == Q(s, WaitQ(i)) && Q(Act(s, e), ReadyQ) == Q(WakeAll(m, WaitQ(i)), ReadyQ)
  {
    if e.Exit? {
      m := ReleaseSlots(s, i);
      ReleaseSlotsFrame(s, i, 0, WaitQ(i));
    } else {
      DetachEffect(s, i);
      var x := SetStatus(Detach(s, i), i, Exited);
      m := ReleaseSlots(x, i);
      DetachWaiters(s, i, i);
      ReleaseSlotsFrame(x, i, 0, WaitQ(i));
    }
  }

  /** Whoever waits for a task that ends becomes ready, in order, after everybody else. */
  lemma EndWakesWaiters(s: State, e: Event, i: nat)
    requires Placement(s) && Allowed(s, e) && (e.Kill? ==> KillReaches(s, e.pid)) && Ends(s, e) == Some(i)
    ensures var waiting, ready := Q(s, WaitQ(i)), Q(Act(s, e), ReadyQ);
      |waiting| <= |ready| && ready[|ready| - |waiting|..] == waiting
  {
    var m := EndOf(s, e, i);
    WakeAllOrder(m, WaitQ(i));
  }
}
