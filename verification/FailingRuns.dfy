/**
 Two runs from boot in which do_kill goes wrong.  In one the shell spawns a task and waits on
 a semaphore, and the new task kills it: the shell stays in the semaphore's queue, and the
 next do_semaphore_up brings it back to life.  In the other the shell takes a lock, gives it
 back and is killed by a task that took it since: do_kill unlocks it.
 */
module FailingRuns {
  import opened Basics
  import opened KernelModel
  import opened KernelSteps
  import opened KernelObjects
  import Mutex
  import LockTable
  import Sync

  const SHELL := 1

  /** Objects as they are before init_pcb. */
  ghost predicate Initial(s: State) {
    && s == Blank(s.queue.Keys, s.lock, s.sem, s.barrier) && |s.lock| >= MAX_LOCK_NUM_TOTAL
    && forall q :: Needed(s, q) ==> q in s.queue
  }

  /** Only the ready queue and one semaphore's queue have tasks in them. */
  ghost predicate Only(s: State, ready: seq<nat>, x: nat, waiting: seq<nat>) {
    forall q :: Q(s, q) == if q == ReadyQ then ready else if q == SemQ(x) then waiting else []
  }

  /** With nobody asleep and one task ready, the scheduler switches to it. */
  lemma SwitchIs(s: State, c: Clock, t: nat)
    requires Placement(s) && s.task[s.current].status != Running && Q(s, ReadyQ) == [t] && Q(s, SleepQ) == []
    ensures Q(Wake(Requeue(s), c), ReadyQ) != []
    ensures t < NUM_MAX_TASK && Schedule(s, c) == Switched(s, 0)
  {
    assert Lists(s, ReadyQ);
    assert Wake(Requeue(s), c) == s;
    ScheduleInOrder(s, c);
  }

  lemma SwitchTo(s: State, t: nat, rest: seq<nat>, x: nat, waiting: seq<nat>)
    requires |s.task| == NUM_MAX_TASK + 1 && s.current <= BOOT && ReadyQ in s.queue
    requires Only(s, [t] + rest, x, waiting) && t < NUM_MAX_TASK && s.current != t
    ensures Q(s, ReadyQ) == [t] + rest
    ensures var r := Switched(s, 0);
      && r.current == t && |r.task| == |s.task| && r.sem == s.sem && r.lock == s.lock && r.pid == s.pid
      && Only(r, rest, x, waiting)
      && r.task[t] == s.task[t].(status := Running, home := None)
      && r.task[s.current] == s.task[s.current].(priority := s.task[s.current].priority - 1)
      && forall u :: 0 <= u < |s.task| && u != t && u != s.current ==> r.task[u] == s.task[u]
  {
    assert s.queue[ReadyQ] == Q(s, ReadyQ) == [t] + rest && Without([t] + rest, 0) == rest;
    var r := Switched(s, 0);
    forall q ensures Q(r, q) == if q == ReadyQ then rest else if q == SemQ(x) then waiting else [] {
      assert Q(s, q) == if q == ReadyQ then [t] + rest else if q == SemQ(x) then waiting else [];
    }
  }

  /** The shell runs, alone. */
  ghost predicate Alone(s: State, x: nat) {
    && Placement(s) && s.current == SHELL && s.task[SHELL] == Newborn(1).(status := Running) && s.pid == 1
    && s.task[0].status == Exited && Only(s, [], x, [])
  }

  /** The first interrupt after boot starts the shell. */
  lemma ShellStarts(s: State, c: Clock, x: nat)
    requires Initial(s)
    ensures ReadyQ in s.queue && Placement(Booted(s)) && Enabled(Booted(s), Timer, c)
    ensures var r := Step(Booted(s), Timer, c); Alone(r, x) && r.sem == s.sem && r.lock == s.lock
  {
    BootPlaced(s);
    BootOnly(s, x);
    SwitchTo(Booted(s), SHELL, [], x, []);
    SwitchIs(Booted(s), c, SHELL);
  }

  lemma BootOnly(s: State, x: nat)
    requires Initial(s)
    ensures ReadyQ in s.queue && Only(Booted(s), [SHELL] + [], x, [])
  {
    BootFormed(s);
    assert [SHELL] + [] == [SHELL];
  }

  /** The shell runs and another task is ready. */
  ghost predicate WithChild(s: State, x: nat) {
    && Placement(s) && s.current == SHELL && s.task[SHELL] == Newborn(1).(status := Running)
    && s.task[0] == Newborn(2).(home := Some(ReadyQ)) && Only(s, [0], x, [])
  }

  lemma ShellSpawns(s: State, c: Clock, x: nat)
    requires Alone(s, x)
    ensures Enabled(s, Spawn, c) && WithChild(Step(s, Spawn, c), x)
    ensures Step(s, Spawn, c).sem == s.sem && Step(s, Spawn, c).lock == s.lock
  {
    var r := SpawnTask(s);
    assert FreeEntry(s.task) == 0;
    assert Step(s, Spawn, c) == r;
    forall q ensures Q(r, q) == if q == ReadyQ then [0] else [] {
      assert Q(s, q) == [];
    }
  }

  /** The child runs and the shell waits on the semaphore; it holds no lock and nobody waits for it. */
  ghost predicate ShellWaits(s: State, x: nat) {
    && Placement(s) && s.current == 0 && s.task[0].status == Running && s.task[0].pid == 2 && s.task[0].resume == ToUser
    && s.task[SHELL] == Newborn(1).(status := Blocked, priority := INITIAL_PRIORITY - 1, home := Some(SemQ(x)))
    && Only(s, [], x, [SHELL]) && x < |s.sem|
  }

  /** The shell has just been put into the queue. */
  ghost predicate Parked(p: State, x: nat) {
    && Placement(p) && p.current == SHELL && Only(p, [0] + [], x, [SHELL]) && x < |p.sem|
    && p.task[0] == Newborn(2).(home := Some(ReadyQ))
    && p.task[SHELL] == Newborn(1).(status := Blocked, home := Some(SemQ(x)))
  }

  lemma ShellParks(s: State, x: nat)
    requires WithChild(s, x) && x < |s.sem| && s.sem[x] == 0
    ensures Allowed(s, Down(x)) && Parked(Act(s, Down(x)), x)
  {
    OnlyCurrentRuns(s);
    var p := Park(s, SHELL, SemQ(x), Blocked);
    assert Act(s, Down(x)) == p && [0] + [] == [0];
    forall q ensures Q(p, q) == if q == ReadyQ then [0] + [] else if q == SemQ(x) then [SHELL] else [] {
      assert Q(s, q) == if q == ReadyQ then [0] else [];
    }
  }

  lemma ParkedThenWaits(p: State, c: Clock, x: nat)
    requires Parked(p, x)
    ensures Q(Wake(Requeue(p), c), ReadyQ) != [] && ShellWaits(Schedule(p, c), x)
  {
    SwitchTo(p, 0, [], x, [SHELL]);
    SwitchIs(p, c, 0);
  }

  lemma ShellBlocks(s: State, c: Clock, x: nat)
    requires WithChild(s, x) && x < |s.sem| && s.sem[x] == 0
    ensures Enabled(s, Down(x), c) && ShellWaits(Step(s, Down(x), c), x)
  {
    ShellParks(s, x);
    ParkedThenWaits(Act(s, Down(x)), c, x);
  }

  lemma {:induction false} NoSlotsNoRelease(s: State, t: nat, j: nat)
    requires Formed(s) && t <= BOOT && j <= LOCK_MAX_NUM && |s.task[t].slots| == LOCK_MAX_NUM
    requires forall i :: 0 <= i < LOCK_MAX_NUM ==> s.task[t].slots[i] == None
    ensures ReleaseSlots(s, t, j) == s
    decreases LOCK_MAX_NUM - j
  {
    if j == LOCK_MAX_NUM {
    } else {
      ReleaseSlotsStep(s, t, j);
      NoSlotsNoRelease(s, t, j + 1);
    }
  }

  lemma ShellFound(task: seq<Task>)
    requires |task| == NUM_MAX_TASK + 1 && task[0].pid == 2 && task[SHELL].pid == 1
    ensures FindPid(task, 1) == SHELL
  {
  }

  /** Marking a task that holds no lock and that nobody waits for is the end of do_kill. */
  lemma NothingElse(s: State, t: nat)
    requires Formed(s) && t < NUM_MAX_TASK && s.task[t].slots == Newborn(1).slots && Q(s, WaitQ(t)) == []
    ensures WakeAll(ReleaseSlots(s, t), WaitQ(t)) == s
  {
    NoSlotsNoRelease(s, t, 0);
  }

  /** do_kill only marks the shell. */
  lemma KillMarks(s: State, x: nat)
    requires ShellWaits(s, x)
    ensures FindPid(s.task, 1) == SHELL && KillTask(s, 1) == SetStatus(s, SHELL, Exited)
  {
    ShellFound(s.task);
    DetachEffect(s, SHELL);
    NothingElse(SetStatus(s, SHELL, Exited), SHELL);
  }

  /** The shell, EXITED, is still in the queue, from which an up wakes it. */
  lemma ShellKilled(s: State, x: nat)
    requires ShellWaits(s, x)
    ensures Allowed(s, Kill(1)) && !KillReaches(s, 1) && !Placement(KillTask(s, 1))
    ensures KillTask(s, 1).task[SHELL].status == Exited && Q(KillTask(s, 1), SemQ(x)) == [SHELL]
    ensures WakeFirst(KillTask(s, 1), SemQ(x)).task[SHELL].status == Ready
  {
    KillMarks(s, x);
    KillExact(s, 1);
    UpWakes(SetStatus(s, SHELL, Exited), SemQ(x));
  }

  lemma UpWakes(s: State, q: QueueId)
    requires Formed(s) && q != ReadyQ && Q(s, q) == [SHELL]
    ensures WakeFirst(s, q).task[SHELL].status == Ready
  {
    MoveTask(s, q, 0);
  }

  /** In the same state, initialising the semaphore again leaves the shell BLOCKED in no queue. */
  lemma ShellForgotten(s: State, x: nat, value: int)
    requires ShellWaits(s, x)
    ensures Exists(s, SemObject(x, value)) && !Placement(Reset(s, SemObject(x, value)))
    ensures var r := Reset(s, SemObject(x, value)); r.task[SHELL].status == Blocked && forall q :: !Queued(r, SHELL, q)
  {
    InitExact(s, SemObject(x, value));
    assert SHELL in Q(s, SemQ(x));
  }

  /**
   The whole run, step by step from the state init_pcb leaves.  Every state up to the kill is
   placed; the kill misses its target, and the next up puts a task that has exited back into
   the ready queue.  do_semaphore_init there would lose the waiter.
   */
  lemma DeadComesBack(s: State, c: Clock, x: nat) returns (s1: State, s2: State, s3: State)
    requires Initial(s) && x < |s.sem| && s.sem[x] == 0
    ensures ReadyQ in s.queue && Placement(Booted(s)) && Next(Booted(s), Timer, c, s1)
    ensures Placement(s1) && Next(s1, Spawn, c, s2)
    ensures Placement(s2) && Next(s2, Down(x), c, s3)
    ensures Placement(s3) && Allowed(s3, Kill(1)) && !KillReaches(s3, 1) && !Placement(KillTask(s3, 1))
    ensures var r := KillTask(s3, 1);
      r.task[SHELL].status == Exited && Q(r, SemQ(x)) == [SHELL] && WakeFirst(r, SemQ(x)).task[SHELL].status == Ready
    ensures x < |s3.sem| && SemQ(x) in s3.queue && !Placement(Reset(s3, SemObject(x, 0)))
  {
    ShellStarts(s, c, x);
    s1 := Step(Booted(s), Timer, c);
    ShellSpawns(s1, c, x);
    s2 := Step(s1, Spawn, c);
    ShellBlocks(s2, c, x);
    s3 := Step(s2, Down(x), c);
    ShellKilled(s3, x);
    ShellForgotten(s3, x, 0);
  }

  // ----------------------------------------------------------------- a lock that is lost

  /** A lock table with one entry. */
  function Table(l: nat): seq<Option<nat>> {
    Newborn(0).slots[0 := Some(l)]
  }

  /** The lock is the only one taken, or none is. */
  predicate OnlyLock(s: State, l: nat, held: bool) {
    l < |s.lock| && forall k :: 0 <= k < |s.lock| ==> s.lock[k] == (held && k == l)
  }

  /** The shell runs alone, and its table names the lock. */
  ghost predicate Recorder(s: State, l: nat, held: bool) {
    && Placement(s) && s.current == SHELL && s.task[SHELL] == Newborn(1).(status := Running, slots := Table(l))
    && s.pid == 1 && s.task[0].status == Exited && Only(s, [], 0, []) && OnlyLock(s, l, held)
  }

  lemma ShellLocks(s: State, c: Clock, l: nat)
    requires Alone(s, 0) && OnlyLock(s, l, false)
    ensures Enabled(s, Lock(l), c) && Recorder(Step(s, Lock(l), c), l, true)
  {
    GrantIs(s, c, l);
    OnlySame(s, Step(s, Lock(l), c), []);
  }

  lemma FreeLockFree(s: State, l: nat)
    requires Placement(s) && l < |s.lock| && s.lock[l] && Q(s, LockQ(l)) == []
    ensures Release(s, l) == s.(lock := s.lock[l := false])
  {
    var u := s.(lock := s.lock[l := false]);
    SameHomesFormed(s, u);
    forall t | 0 <= t <= BOOT ensures u.task[t].home != Some(LockQ(l)) {
      assert AtHome(s, t);
    }
    assert WipeWaiters(u, l).task == u.task;
  }

  lemma ShellUnlocks(s: State, c: Clock, l: nat)
    requires Recorder(s, l, true)
    ensures Enabled(s, Unlock(l), c) && Recorder(Step(s, Unlock(l), c), l, false)
  {
    FreeLockFree(s, l);
    assert Step(s, Unlock(l), c) == Release(s, l);
  }

  /** The shell, whose table names the free lock, runs and another task is ready. */
  ghost predicate RecorderWithChild(s: State, l: nat) {
    && Placement(s) && s.current == SHELL && s.task[SHELL] == Newborn(1).(status := Running, slots := Table(l))
    && s.task[0] == Newborn(2).(home := Some(ReadyQ)) && Only(s, [0], 0, []) && OnlyLock(s, l, false)
  }

  lemma RecorderSpawns(s: State, c: Clock, l: nat)
    requires Recorder(s, l, false)
    ensures Enabled(s, Spawn, c) && RecorderWithChild(Step(s, Spawn, c), l)
  {
    var r := SpawnTask(s);
    assert FreeEntry(s.task) == 0;
    assert Step(s, Spawn, c) == r;
    forall q ensures Q(r, q) == if q == ReadyQ then [0] else [] {
      assert Q(s, q) == [];
    }
  }

  /** The child runs; the shell is ready and its table names the lock. */
  ghost predicate ChildRuns(s: State, l: nat, slots: seq<Option<nat>>, held: bool) {
    && Placement(s) && s.current == 0 && s.task[0] == Newborn(2).(status := Running, slots := slots)
    && s.task[SHELL] == Task(Ready, INITIAL_PRIORITY - 1, 0, 1, Table(l), ToUser, Some(ReadyQ))
    && Only(s, [SHELL], 0, []) && OnlyLock(s, l, held)
  }

  /** With two tasks of equal priority ready and nobody asleep, the first is chosen. */
  lemma FirstOfTwo(s: State, c: Clock, t: nat, u: nat)
    requires Placement(s) && s.task[s.current].status != Running && Q(s, ReadyQ) == [t] + [u] && Q(s, SleepQ) == []
    requires Priority(s, t) == Priority(s, u)
    ensures Q(Wake(Requeue(s), c), ReadyQ) != [] && t < NUM_MAX_TASK && Schedule(s, c) == Switched(s, 0)
  {
    assert Lists(s, ReadyQ);
    assert Wake(Requeue(s), c) == s;
    ScheduleInOrder(s, c);
  }

  /** The shell has just gone back to the ready queue. */
  ghost predicate Requeued(p: State, l: nat) {
    && Placement(p) && p.current == SHELL && p.task[0] == Newborn(2).(home := Some(ReadyQ))
    && p.task[SHELL] == Newborn(1).(status := Ready, slots := Table(l), home := Some(ReadyQ))
    && Only(p, [0] + [SHELL], 0, []) && OnlyLock(p, l, false)
  }

  lemma ShellRequeues(s: State, l: nat)
    requires RecorderWithChild(s, l)
    ensures Requeued(Requeue(s), l)
  {
    OnlyCurrentRuns(s);
    var p := Park(s, SHELL, ReadyQ, Ready);
    assert Requeue(s) == p && [0] + [SHELL] == [0, SHELL];
    forall q ensures Q(p, q) == if q == ReadyQ then [0] + [SHELL] else [] {
      assert Q(s, q) == if q == ReadyQ then [0] else [];
    }
  }

  lemma RequeuedThenRuns(p: State, c: Clock, l: nat)
    requires Requeued(p, l)
    ensures Q(Wake(Requeue(p), c), ReadyQ) != [] && ChildRuns(Schedule(p, c), l, Newborn(0).slots, false)
  {
    SwitchTo(p, 0, [SHELL], 0, []);
    FirstOfTwo(p, c, 0, SHELL);
  }

  /** An interrupt that finds the current task's place in the ready queue already taken. */
  lemma TimerIs(s: State, c: Clock)
    requires Placement(s) && Allowed(s, Timer) && Requeue(Requeue(s)) == Requeue(s)
    requires Q(Wake(Requeue(Requeue(s)), c), ReadyQ) != []
    ensures Enabled(s, Timer, c) && Step(s, Timer, c) == Schedule(Requeue(s), c)
  {
    assert Act(s, Timer) == s;
  }

  lemma RequeuedStays(p: State, l: nat)
    requires Requeued(p, l)
    ensures Requeue(p) == p
  {
  }

  lemma ShellPreempted(s: State, c: Clock, l: nat)
    requires RecorderWithChild(s, l)
    ensures Enabled(s, Timer, c) && ChildRuns(Step(s, Timer, c), l, Newborn(0).slots, false)
  {
    ShellRequeues(s, l);
    RequeuedStays(Requeue(s), l);
    RequeuedThenRuns(Requeue(s), c, l);
    TimerIs(s, c);
  }

  /** A free lock is granted: the lock word and the caller's table change, and nothing else. */
  lemma GrantIs(s: State, c: Clock, l: nat)
    requires Placement(s) && Allowed(s, Lock(l)) && !s.lock[l]
    ensures var t := s.current; Enabled(s, Lock(l), c) && Step(s, Lock(l), c) == s.(lock := s.lock[l := true],
      task := s.task[t := s.task[t].(resume := ToUser, slots := Record(s.task[t].slots, l))])
  {
    OnlyCurrentRuns(s);
    assert Step(s, Lock(l), c) == Acquire(s, l);
  }

  lemma ChildLocks(s: State, c: Clock, l: nat)
    requires ChildRuns(s, l, Newborn(0).slots, false)
    ensures Enabled(s, Lock(l), c) && ChildRuns(Step(s, Lock(l), c), l, Table(l), true)
  {
    GrantIs(s, c, l);
    OnlySame(s, Step(s, Lock(l), c), [SHELL]);
  }

  lemma OnlySame(s: State, r: State, ready: seq<nat>)
    requires r.queue == s.queue && Only(s, ready, 0, [])
    ensures Only(r, ready, 0, [])
  {
    assert forall q :: Q(r, q) == Q(s, q);
  }

  lemma ChildHolds(s: State, l: nat)
    requires OnlyLock(s, l, true) && Only(s, [SHELL], 0, [])
    ensures Mutex.MutexSafe(s, {(0, l)})
  {
    assert (0, l) in {(0, l)} && Mutex.Held({(0, l)}, l);
  }

  lemma HolderOfFreeLock(r: State, l: nat)
    requires l < |r.lock| && !r.lock[l]
    ensures !Mutex.MutexSafe(r, {(0, l)})
  {
    assert (0, l) in {(0, l)} && Mutex.Held({(0, l)}, l);
  }

  /** The child holds the lock; killing the shell, which held it before, unlocks it. */
  lemma LockReleasedByKill(s: State, l: nat)
    requires ChildRuns(s, l, Table(l), true)
    ensures Allowed(s, Kill(1)) && KillReaches(s, 1)
    ensures l < |Act(s, Kill(1)).lock| && !Act(s, Kill(1)).lock[l]
  {
    ShellFound(s.task);
    assert Table(l)[0] == Some(l);
    assert Mutex.Recorded(s, SHELL, l);
    Mutex.EndReleases(s, Kill(1), SHELL, l);
  }

  lemma FirstHalf(s: State, c: Clock, l: nat) returns (s1: State, s2: State, s3: State)
    requires Initial(s) && OnlyLock(s, l, false)
    ensures ReadyQ in s.queue && Placement(Booted(s)) && Recorder(s3, l, false)
    ensures Next(Booted(s), Timer, c, s1) && Next(s1, Lock(l), c, s2) && Next(s2, Unlock(l), c, s3)
  {
    ShellStarts(s, c, 0);
    s1 := Step(Booted(s), Timer, c);
    ShellLocks(s1, c, l);
    s2 := Step(s1, Lock(l), c);
    ShellUnlocks(s2, c, l);
    s3 := Step(s2, Unlock(l), c);
  }

  lemma SecondHalf(s3: State, c: Clock, l: nat) returns (s4: State, s5: State, s6: State)
    requires Recorder(s3, l, false)
    ensures ChildRuns(s6, l, Table(l), true)
    ensures Next(s3, Spawn, c, s4) && Next(s4, Timer, c, s5) && Next(s5, Lock(l), c, s6)
  {
    RecorderSpawns(s3, c, l);
    s4 := Step(s3, Spawn, c);
    ShellPreempted(s4, c, l);
    s5 := Step(s4, Timer, c);
    ChildLocks(s5, c, l);
    s6 := Step(s5, Lock(l), c);
  }

  lemma ChildLosesLock(s: State, l: nat)
    requires ChildRuns(s, l, Table(l), true)
    ensures Allowed(s, Kill(1)) && KillReaches(s, 1)
    ensures Mutex.MutexSafe(s, {(0, l)}) && !Mutex.MutexSafe(Act(s, Kill(1)), {(0, l)})
  {
    LockReleasedByKill(s, l);
    ChildHolds(s, l);
    HolderOfFreeLock(Act(s, Kill(1)), l);
  }

  /** The whole run: the child took the lock and still has it, but the lock is free for the next task. */
  lemma LockLost(s: State, c: Clock, l: nat)
    returns (s1: State, s2: State, s3: State, s4: State, s5: State, s6: State)
    requires Initial(s) && OnlyLock(s, l, false)
    ensures ReadyQ in s.queue && Placement(Booted(s))
    ensures Next(Booted(s), Timer, c, s1) && Next(s1, Lock(l), c, s2) && Next(s2, Unlock(l), c, s3)
    ensures Next(s3, Spawn, c, s4) && Next(s4, Timer, c, s5) && Next(s5, Lock(l), c, s6)
    ensures Placement(s6) && Allowed(s6, Kill(1)) && KillReaches(s6, 1)
    ensures Mutex.MutexSafe(s6, {(0, l)}) && !Mutex.MutexSafe(Act(s6, Kill(1)), {(0, l)})
  {
    s1, s2, s3 := FirstHalf(s, c, l);
    s4, s5, s6 := SecondHalf(s3, c, l);
    ChildLosesLock(s6, l);
  }

  // ----------------------------------------------------------------- a lock nobody can free

  /** A lock table in which locks 0 to n - 1 were noted, as far as there was room. */
  function Notes(n: nat): seq<Option<nat>> {
    seq(LOCK_MAX_NUM, (j: nat) => if j < n then Some(j) else None)
  }

  /** Locks 0 to n - 1 are taken and no other. */
  predicate FirstLocks(locks: seq<bool>, n: nat) {
    |locks| >= MAX_LOCK_NUM_TOTAL && forall k :: 0 <= k < |locks| ==> locks[k] == (k < n)
  }

  /** The shell has taken locks 0 to n - 1; its child is ready. */
  ghost predicate Hoards(s: State, n: nat) {
    && Placement(s) && s.current == SHELL && s.task[SHELL] == Newborn(1).(status := Running, slots := Notes(n))
    && Only(s, [0], 0, []) && FirstLocks(s.lock, n)
  }

  lemma FirstEmptyIs(n: nat, k: nat)
    requires LockTable.FirstEmpty(Notes(n), k)
    ensures k == n
  {
    var was := Notes(n);
    assert forall j :: 0 <= j < k ==> was[j] in was[..k] by {
      forall j | 0 <= j < k ensures was[j] in was[..k] { assert was[..k][j] == was[j]; }
    }
    assert was[Min(n, LOCK_MAX_NUM - 1)] == None || n >= LOCK_MAX_NUM;
  }

  lemma NoteNext(n: nat)
    ensures Record(Notes(n), n) == Notes(n + 1)
  {
    LockTable.RecordNotes(Notes(n), n);
    var was, now := Notes(n), Record(Notes(n), n);
    if n < LOCK_MAX_NUM {
      assert was[n] == None;
      var k: nat :| LockTable.FirstEmpty(was, k) && now == was[k := Some(n)];
      FirstEmptyIs(n, k);
    }
    assert now == Notes(n + 1);
  }

  /** The state after the calls for locks 0 to n - 1. */
  function Hoarding(s: State, n: nat): State
    requires SHELL < |s.task|
  {
    s.(lock := seq(|s.lock|, (k: nat) => k < n), task := s.task[SHELL := s.task[SHELL].(slots := Notes(n))])
  }

  lemma HoardingHoards(s: State, n: nat)
    requires Hoards(s, 0) && n <= MAX_LOCK_NUM_TOTAL
    ensures Hoards(Hoarding(s, n), n) && Hoarding(s, 0) == s
  {
    var r := Hoarding(s, n);
    assert SlotsOk(Notes(n), |s.lock|);
    forall t | 0 <= t <= BOOT ensures SlotsOk(r.task[t].slots, |r.lock|) { assert SlotsOk(s.task[t].slots, |s.lock|); }
    SamePlacesKeep(s, r);
    assert Hoarding(s, 0).lock == s.lock && Hoarding(s, 0).task == s.task;
    assert forall q :: Q(r, q) == Q(s, q);
  }

  lemma AcquireIs(s: State, n: nat)
    requires Hoards(s, 0) && n < MAX_LOCK_NUM_TOTAL && Hoards(Hoarding(s, n), n)
    ensures Acquire(Hoarding(s, n), n) == Hoarding(s, n + 1)
  {
    NoteNext(n);
    var a, b := Acquire(Hoarding(s, n), n), Hoarding(s, n + 1);
    assert a.lock == b.lock;
    assert a.task == b.task;
  }

  /** Each call for the next lock is granted at once. */
  lemma HoardingNext(s: State, c: Clock, n: nat)
    requires Hoards(s, 0) && n < MAX_LOCK_NUM_TOTAL
    ensures Next(Hoarding(s, n), Lock(n), c, Hoarding(s, n + 1))
  {
    HoardingHoards(s, n);
    AcquireIs(s, n);
    ReturnNext(Hoarding(s, n), Lock(n), c);
  }

  /** The locks the shell holds. */
  function Hoard(n: nat): Mutex.Holds {
    set k: nat | k < n :: (SHELL, k)
  }

  lemma HoardSafe(s: State, n: nat)
    requires Hoards(s, n) && n <= MAX_LOCK_NUM_TOTAL
    ensures Mutex.MutexSafe(s, Hoard(n))
  {
    forall l | 0 <= l < |s.lock| ensures s.lock[l] <==> Mutex.Held(Hoard(n), l) {
      if l < n {
        assert (SHELL, l) in Hoard(n);
      }
    }
  }

  lemma ExitLeaves(s: State)
    requires Placement(s) && s.current == SHELL && s.task[SHELL].status == Running
    ensures var p := ExitTask(s); Q(s, ReadyQ) <= Q(p, ReadyQ) && p.current == SHELL && p.task[SHELL].status == Exited
  {
    var m := ReleaseSlots(s, SHELL);
    assert Woken(s, m) && Woken(m, WakeAll(m, WaitQ(SHELL)));
  }

  lemma ExitEnabled(s: State, c: Clock)
    requires Placement(s) && s.current == SHELL && s.task[SHELL].status == Running && s.task[SHELL].resume == ToUser
    requires Q(s, ReadyQ) != []
    ensures Enabled(s, Exit, c)
  {
    ExitLeaves(s);
    var p := ExitTask(s);
    assert Requeue(p) == p && Woken(p, Wake(p, c));
  }

  /** A lock that is taken and not in the table stays taken. */
  lemma ExitForgets(s: State, c: Clock, l: nat)
    requires Placement(s) && s.current == SHELL && s.task[SHELL].status == Running && Enabled(s, Exit, c)
    requires l < |s.lock| && s.lock[l] && Some(l) !in s.task[SHELL].slots
    ensures l < |Step(s, Exit, c).lock| && Step(s, Exit, c).lock[l]
  {
    Mutex.ExitReleases(s, l);
    Sync.StepAfterAct(s, Exit, c, BlockQ);
  }

  lemma NothingHoarded(s: State)
    requires WithChild(s, 0) && FirstLocks(s.lock, 0)
    ensures Hoards(s, 0)
  {
    assert Newborn(1).slots == Notes(0);
  }

  lemma UntilChild(s: State, c: Clock) returns (s1: State, s2: State)
    requires Initial(s) && FirstLocks(s.lock, 0)
    ensures ReadyQ in s.queue && Placement(Booted(s)) && Next(Booted(s), Timer, c, s1) && Next(s1, Spawn, c, s2)
    ensures Hoards(s2, 0)
  {
    ShellStarts(s, c, 0);
    s1 := Step(Booted(s), Timer, c);
    ShellSpawns(s1, c, 0);
    s2 := Step(s1, Spawn, c);
    NothingHoarded(s2);
  }

  /** The end of the run: the shell holds locks 0 to 10 and exits. */
  lemma LastForgotten(s: State, c: Clock)
    requires Hoards(s, LOCK_MAX_NUM + 1)
    ensures Mutex.MutexSafe(s, Hoard(LOCK_MAX_NUM + 1)) && Mutex.Others(Hoard(LOCK_MAX_NUM + 1), SHELL) == {}
    ensures Enabled(s, Exit, c) && LOCK_MAX_NUM < |Step(s, Exit, c).lock| && Step(s, Exit, c).lock[LOCK_MAX_NUM]
  {
    HoardSafe(s, LOCK_MAX_NUM + 1);
    ExitEnabled(s, c);
    ExitForgets(s, c, LOCK_MAX_NUM);
  }

  /**
   The whole run: the shell spawns a task, takes locks 0 to 10 and exits.  Its table had room
   for ten: lock 10 is LOCKED, nobody holds it, and nobody will ever release it.
   */
  lemma LockForgotten(s: State, c: Clock) returns (s1: State, s2: State, s3: State)
    requires Initial(s) && FirstLocks(s.lock, 0)
    ensures ReadyQ in s.queue && Placement(Booted(s)) && Next(Booted(s), Timer, c, s1) && Next(s1, Spawn, c, s2)
    ensures Hoards(s2, 0) && s3 == Hoarding(s2, LOCK_MAX_NUM + 1) && Hoarding(s2, 0) == s2
    ensures forall n: nat :: n <= LOCK_MAX_NUM ==> Next(Hoarding(s2, n), Lock(n), c, Hoarding(s2, n + 1))
    ensures Mutex.MutexSafe(s3, Hoard(LOCK_MAX_NUM + 1)) && Mutex.Others(Hoard(LOCK_MAX_NUM + 1), SHELL) == {}
    ensures Placement(s3) && Enabled(s3, Exit, c)
    ensures LOCK_MAX_NUM < |Step(s3, Exit, c).lock| && Step(s3, Exit, c).lock[LOCK_MAX_NUM]
  {
    s1, s2 := UntilChild(s, c);
    forall n: nat | n <= LOCK_MAX_NUM ensures Next(Hoarding(s2, n), Lock(n), c, Hoarding(s2, n + 1)) {
      HoardingNext(s2, c, n);
    }
    s3 := Hoarding(s2, LOCK_MAX_NUM + 1);
    HoardingHoards(s2, LOCK_MAX_NUM + 1);
    LastForgotten(s3, c);
  }
}
