/**
 The lock tables of the tasks.  An acquired lock is noted in the first empty slot; nothing
 takes it out when it is released, and do_mutex_lock_release clears slots of the tasks that
 wait for the lock.  This module says what every system call does to every table, and when,
 over whole runs, the tables name every lock a task holds, so that do_exit and do_kill free
 them.
 */
module LockTable {
  import opened Basics
  import opened KernelModel
  import opened KernelSteps
  import opened Sync
  import opened Mutex

  // ----------------------------------------------------------------- noting and clearing

  /** Slot k is the first empty one. */
  predicate FirstEmpty(slots: seq<Option<nat>>, k: nat) {
    k < |slots| && slots[k] == None && None !in slots[..k]
  }

  /** The lock went into the first empty slot, and nowhere if there is none. */
  ghost predicate Noted(was: seq<Option<nat>>, now: seq<Option<nat>>, l: nat) {
    if None in was then exists k: nat :: FirstEmpty(was, k) && now == was[k := Some(l)] else now == was
  }

  /** Slot 0 stays; the others are emptied unless slot 0 names the lock. */
  predicate Cleared(was: seq<Option<nat>>, now: seq<Option<nat>>, l: nat) {
    && |was| == |now| == LOCK_MAX_NUM && now[0] == was[0]
    && forall j :: 1 <= j < LOCK_MAX_NUM ==> now[j] == if was[0] == Some(l) then was[j] else None
  }

  lemma {:induction false} RecordFrom(slots: seq<Option<nat>>, l: nat, from: nat)
    requires from <= |slots| && None !in slots[..from]
    ensures Noted(slots, Record(slots, l, from), l)
    decreases |slots| - from
  {
    if from == |slots| {
      assert slots[..from] == slots;
    } else if slots[from].None? {
      assert FirstEmpty(slots, from);
    } else {
      assert slots[..from + 1] == slots[..from] + [slots[from]];
      RecordFrom(slots, l, from + 1);
    }
  }

  /** The search of do_mutex_lock_acquire. */
  lemma RecordNotes(slots: seq<Option<nat>>, l: nat)
    ensures Noted(slots, Record(slots, l), l)
  {
    RecordFrom(slots, l, 0);
  }

  lemma WipedClears(slots: seq<Option<nat>>, l: nat)
    requires |slots| == LOCK_MAX_NUM
    ensures Cleared(slots, Wiped(slots, l), l)
  {
  }

  // ----------------------------------------------------------------- moving tasks leaves their tables alone

  /** The task was moved to the ready queue, and is otherwise the same. */
  predicate MovedOut(a: Task, b: Task, q: QueueId) {
    b == if a.home == Some(q) then a.(status := Ready, home := Some(ReadyQ)) else a
  }

  lemma MoveOne(s: State, q: QueueId, k: nat, t: nat)
    requires Formed(s) && q != ReadyQ && k < |Q(s, q)| && t < |s.task|
    ensures var r := MoveToReady(s, q, k);
      t < |r.task| && r.task[t] == if t == Q(s, q)[k] then s.task[t].(status := Ready, home := Some(ReadyQ))
        else s.task[t]
  {
    MoveTask(s, q, k);
  }

  lemma {:induction false} UnblockAllMoves(s: State, q: QueueId, t: nat)
    requires Formed(s) && q != ReadyQ && t < |s.task|
    ensures t < |UnblockAll(s, q).task| && MovedOut(s.task[t], UnblockAll(s, q).task[t], q)
    decreases |Q(s, q)|
  {
    if Q(s, q) == [] {
      assert AtHome(s, t);
    } else {
      UnblockStep(s, q);
      MoveOne(s, q, Pick(s, Q(s, q)), t);
      assert Lists(s, q);
      UnblockAllMoves(UnblockOne(s, q), q, t);
    }
  }

  lemma {:induction false} WakeAllMoves(s: State, q: QueueId, t: nat)
    requires Formed(s) && q != ReadyQ && t < |s.task|
    ensures t < |WakeAll(s, q).task| && MovedOut(s.task[t], WakeAll(s, q).task[t], q)
    decreases |Q(s, q)|
  {
    if Q(s, q) == [] {
      assert AtHome(s, t);
    } else {
      WakeStep(s, q);
      MoveOne(s, q, 0, t);
      assert Lists(s, q);
      WakeAllMoves(WakeFirst(s, q), q, t);
    }
  }

  /** What a release of lock l does to task t. */
  function ReleasedTask(s: State, l: nat, t: nat): Task
    requires t < |s.task| && l < |s.lock| && |s.task[t].slots| == LOCK_MAX_NUM
  {
    if s.lock[l] && s.task[t].home == Some(LockQ(l))
    then s.task[t].(status := Ready, home := Some(ReadyQ), slots := Wiped(s.task[t].slots, l))
    else s.task[t]
  }

  lemma ReleaseTask(s: State, l: nat, t: nat)
    requires Formed(s) && l < |s.lock| && t <= BOOT
    ensures |s.task[t].slots| == LOCK_MAX_NUM && Release(s, l).task[t] == ReleasedTask(s, l, t)
  {
    assert SlotsOk(s.task[t].slots, |s.lock|);
    if s.lock[l] {
      var u := s.(lock := s.lock[l := false]);
      SameHomesFormed(s, u);
      UnblockAllMoves(WipeWaiters(u, l), LockQ(l), t);
    }
  }

  // ----------------------------------------------------------------- do_exit and do_kill

  /** Task u waits for a lock that the loop over task t's table, from slot j on, releases. */
  predicate Swept(s: State, t: nat, j: nat, u: nat)
    requires t < |s.task| && u < |s.task| && j <= |s.task[t].slots|
  {
    match s.task[u].home
    case Some(LockQ(l)) => l < |s.lock| && s.lock[l] && Some(l) in s.task[t].slots[j..]
    case _ => false
  }

  /** The table of task u after that loop. */
  function SweptSlots(s: State, t: nat, j: nat, u: nat): seq<Option<nat>>
    requires t < |s.task| && u < |s.task| && j <= |s.task[t].slots| && |s.task[u].slots| == LOCK_MAX_NUM
  {
    if Swept(s, t, j, u) then Wiped(s.task[u].slots, s.task[u].home.value.lock) else s.task[u].slots
  }

  lemma SweptNext(s: State, t: nat, j: nat, u: nat, m: State)
    requires t < |s.task| == |m.task| && u < |s.task| && j < |s.task[t].slots| && m.task[t] == s.task[t]
    requires |s.task[u].slots| == LOCK_MAX_NUM && |m.lock| == |s.lock|
    requires match s.task[t].slots[j]
      case None => m == s
      case Some(l) => l < |s.lock| && m.lock == s.lock[l := false] && m.task[u] == ReleasedTask(s, l, u)
    ensures |m.task[u].slots| == LOCK_MAX_NUM && SweptSlots(m, t, j + 1, u) == SweptSlots(s, t, j, u)
  {
    match s.task[u].home
    case Some(LockQ(l)) => SlotsSplit(s.task[t].slots, j, l);
    case _ =>
  }

  lemma SlotStep(s: State, t: nat, j: nat, u: nat) returns (m: State)
    requires Formed(s) && t <= BOOT && u <= BOOT && s.task[t].home == None && j < LOCK_MAX_NUM
    ensures Formed(m) && m.task[t] == s.task[t] && ReleaseSlots(s, t, j) == ReleaseSlots(m, t, j + 1)
    ensures |s.task[t].slots| == |s.task[u].slots| == |m.task[u].slots| == LOCK_MAX_NUM
    ensures SweptSlots(m, t, j + 1, u) == SweptSlots(s, t, j, u)
  {
    assert SlotsOk(s.task[t].slots, |s.lock|) && SlotsOk(s.task[u].slots, |s.lock|);
    m := s;
    ReleaseSlotsStep(s, t, j);
    if s.task[t].slots[j].Some? {
      var l := s.task[t].slots[j].value;
      m := Release(s, l);
      ReleaseTask(s, l, t);
      ReleaseTask(s, l, u);
    }
    SweptNext(s, t, j, u, m);
  }

  lemma {:induction false} ReleaseSlotsTable(s: State, t: nat, j: nat, u: nat)
    requires Formed(s) && t <= BOOT && u <= BOOT && s.task[t].home == None && j <= LOCK_MAX_NUM
    ensures |s.task[t].slots| == |s.task[u].slots| == LOCK_MAX_NUM
    ensures ReleaseSlots(s, t, j).task[u].slots == SweptSlots(s, t, j, u)
    decreases LOCK_MAX_NUM - j
  {
    assert SlotsOk(s.task[t].slots, |s.lock|) && SlotsOk(s.task[u].slots, |s.lock|);
    if j == LOCK_MAX_NUM {
    } else {
      var m := SlotStep(s, t, j, u);
      ReleaseSlotsTable(m, t, j + 1, u);
    }
  }

  lemma ExitTable(s: State, u: nat)
    requires Placement(s) && s.current < NUM_MAX_TASK && s.task[s.current].status == Running && u <= BOOT
    ensures |s.task[s.current].slots| == |s.task[u].slots| == LOCK_MAX_NUM
    ensures ExitTask(s).task[u].slots == SweptSlots(s, s.current, 0, u)
  {
    OnlyCurrentRuns(s);
    ReleaseSlotsTable(s, s.current, 0, u);
    WakeAllMoves(ReleaseSlots(s, s.current), WaitQ(s.current), u);
  }

  /** Task i once do_kill has marked it EXITED, before its locks and its waiters are let go. */
  lemma LetGo(s: State, e: State, i: nat, u: nat)
    requires Placement(s) && Formed(e) && i < NUM_MAX_TASK && u <= BOOT && u != i
    requires e == s.(task := s.task[i := s.task[i].(home := None, status := Exited)], queue := e.queue)
    ensures |s.task[i].slots| == |s.task[u].slots| == LOCK_MAX_NUM
    ensures WakeAll(ReleaseSlots(e, i), WaitQ(i)).task[u].slots == SweptSlots(s, i, 0, u)
  {
    assert SlotsOk(s.task[i].slots, |s.lock|) && SlotsOk(s.task[u].slots, |s.lock|);
    ReleaseSlotsTable(e, i, 0, u);
    WakeAllMoves(ReleaseSlots(e, i), WaitQ(i), u);
    SweptSame(s, e, i, u);
  }

  lemma KillTable(s: State, n: nat, i: nat, u: nat)
    requires Placement(s) && KillReaches(s, n) && Ends(s, Kill(n)) == Some(i) && u <= BOOT && u != i
    ensures |s.task[i].slots| == |s.task[u].slots| == LOCK_MAX_NUM
    ensures KillTask(s, n).task[u].slots == SweptSlots(s, i, 0, u)
  {
    DetachedFits(s, i);
    LetGo(s, SetStatus(Detach(s, i), i, Exited), i, u);
  }

  lemma SweptSame(s: State, e: State, t: nat, u: nat)
    requires t < |s.task| == |e.task| && u < |s.task| && |s.task[t].slots| == |s.task[u].slots| == LOCK_MAX_NUM
    requires e.task[u] == s.task[u] && e.task[t].slots == s.task[t].slots && e.lock == s.lock
    ensures SweptSlots(e, t, 0, u) == SweptSlots(s, t, 0, u)
  {
  }

  // ----------------------------------------------------------------- every system call

  /** The call unlocks lock l. */
  predicate Frees(s: State, e: Event, l: nat) {
    && l < |s.lock| && s.lock[l]
    && (Releases(e) == Some(l) || (Ends(s, e).Some? && Recorded(s, Ends(s, e).value, l)))
  }

  /** The task waits for a lock the call unlocks. */
  predicate Loses(s: State, e: Event, u: nat)
    requires u < |s.task|
  {
    match s.task[u].home
    case Some(LockQ(l)) => Frees(s, e, l)
    case _ => false
  }

  /** What the call does to the table of task u. */
  ghost predicate TableLaw(s: State, e: Event, u: nat, now: seq<Option<nat>>)
    requires Allowed(s, e) && u < |s.task|
  {
    var was := s.task[u].slots;
    if Acquires(s, e).Some? && u == s.current then Noted(was, now, Acquires(s, e).value)
    else if Loses(s, e, u) then Cleared(was, now, s.task[u].home.value.lock)
    else now == was
  }

  /** The call gives the table entry to a new task. */
  predicate Replaces(s: State, e: Event, u: nat) {
    e == Spawn && |s.task| == NUM_MAX_TASK + 1 && u == FreeEntry(s.task)
  }

  lemma AcquireTable(s: State, l: nat, u: nat)
    requires Placement(s) && s.current < NUM_MAX_TASK &&
      s.task[s.current].status == Running && l < |s.lock| && u <= BOOT
    ensures var was, now := s.task[u].slots, Acquire(s, l).task[u].slots;
      if !s.lock[l] && u == s.current then Noted(was, now, l) else now == was
  {
    OnlyCurrentRuns(s);
    RecordNotes(s.task[s.current].slots, l);
  }

  lemma UnlockTable(s: State, l: nat, u: nat)
    requires Placement(s) && l < |s.lock| && u <= BOOT
    ensures var was, now := s.task[u].slots, Release(s, l).task[u].slots;
      if s.lock[l] && s.task[u].home == Some(LockQ(l)) then Cleared(was, now, l) else now == was
  {
    ReleaseTask(s, l, u);
    WipedClears(s.task[u].slots, l);
  }

  lemma WaitTable(s: State, l: nat, c: nat, u: nat)
    requires Placement(s) && s.current < NUM_MAX_TASK && s.task[s.current].status == Running && l < |s.lock|
    requires CondQ(c) in s.queue && u <= BOOT
    ensures var was, now := s.task[u].slots, WaitOnCondition(s, l, c).task[u].slots;
      if s.lock[l] && s.task[u].home == Some(LockQ(l)) then Cleared(was, now, l) else now == was
  {
    OnlyCurrentRuns(s);
    UnlockTable(Park(SetResume(s, Acquiring(l)), s.current, CondQ(c), Blocked), l, u);
  }

  lemma SweptLaw(s: State, e: Event, t: nat, u: nat, now: seq<Option<nat>>)
    requires Allowed(s, e) && Ends(s, e) == Some(t) && t < |s.task| && u < |s.task|
    requires |s.task[t].slots| == |s.task[u].slots| == LOCK_MAX_NUM && now == SweptSlots(s, t, 0, u)
    ensures TableLaw(s, e, u, now)
  {
    assert s.task[t].slots[0..] == s.task[t].slots;
    match s.task[u].home
    case Some(LockQ(l)) => WipedClears(s.task[u].slots, l);
    case _ =>
  }

  /** The calls on other objects, which leave every table alone. */
  predicate Elsewhere(e: Event) {
    !e.Exit? && !e.Kill? && !e.Lock? && !e.Retry? && !e.Unlock? && !e.CondWait? && !e.Spawn?
  }

  lemma WakingTable(s: State, e: Event, u: nat)
    requires Placement(s) && Allowed(s, e) && (e.WakeOne? || e.WakeEvery? || e.Signal? || e.Broadcast?) && u <= BOOT
    ensures Act(s, e).task[u].slots == s.task[u].slots
  {
    match e
    case WakeOne(q) => if Q(s, q) != [] { MoveOne(s, q, Pick(s, Q(s, q)), u); }
    case WakeEvery(q) => UnblockAllMoves(s, q, u);
    case Signal(c) => if Q(s, CondQ(c)) != [] { MoveOne(s, CondQ(c), 0, u); }
    case Broadcast(c) => WakeAllMoves(s, CondQ(c), u);
  }

  lemma ElsewhereTable(s: State, e: Event, u: nat)
    requires Placement(s) && Allowed(s, e) && Elsewhere(e) && u <= BOOT
    ensures Act(s, e).task[u].slots == s.task[u].slots
  {
    if e.WakeOne? || e.WakeEvery? || e.Signal? || e.Broadcast? {
      WakingTable(s, e, u);
    } else {
      OnlyCurrentRuns(s);
      match e
      case Up(x) => if Q(s, SemQ(x)) != [] { MoveOne(s, SemQ(x), 0, u); }
      case Arrive(b) => WakeAllMoves(s, BarrierQ(b), u);
      case Init(o) => ResetKeeps(s, o);
      case _ =>
    }
  }

  lemma SpawnTable(s: State, u: nat)
    requires Placement(s) && u <= BOOT && u != FreeEntry(s.task)
    ensures SpawnTask(s).task[u].slots == s.task[u].slots
  {
  }

  lemma AcquireLaw(s: State, e: Event, l: nat, u: nat)
    requires Placement(s) && Allowed(s, e) && u <= BOOT
    requires e == Lock(l) || (e == Retry && l == s.task[s.current].resume.lock)
    ensures TableLaw(s, e, u, Acquire(s, l).task[u].slots)
  {
    AcquireTable(s, l, u);
    LockOnly(s, e, u);
  }

  lemma LockOnly(s: State, e: Event, u: nat)
    requires Allowed(s, e) && (e.Lock? || e.Retry?) && u < |s.task|
    ensures !Loses(s, e, u)
  {
  }

  lemma ReleaseLaw(s: State, e: Event, l: nat, u: nat, now: seq<Option<nat>>)
    requires Allowed(s, e) && Releases(e) == Some(l) && u < |s.task|
    requires if s.lock[l] && s.task[u].home == Some(LockQ(l)) then Cleared(s.task[u].slots, now, l)
      else now == s.task[u].slots
    ensures TableLaw(s, e, u, now)
  {
    assert Acquires(s, e) == None && Ends(s, e) == None;
    assert Loses(s, e, u) <==> s.lock[l] && s.task[u].home == Some(LockQ(l));
  }

  lemma LockCallTable(s: State, e: Event, u: nat)
    requires Placement(s) && Allowed(s, e) && (e.Lock? || e.Retry? || e.Unlock? || e.CondWait?) && u <= BOOT
    ensures TableLaw(s, e, u, Act(s, e).task[u].slots)
  {
    match e {
      case Lock(l) => AcquireLaw(s, e, l, u);
      case Retry => AcquireLaw(s, e, s.task[s.current].resume.lock, u);
      case Unlock(l) =>
        UnlockTable(s, l, u);
        ReleaseLaw(s, e, l, u, Release(s, l).task[u].slots);
      case CondWait(l, c) =>
        WaitTable(s, l, c, u);
        ReleaseLaw(s, e, l, u, WaitOnCondition(s, l, c).task[u].slots);
    }
  }

  lemma EndTable(s: State, e: Event, t: nat, u: nat)
    requires Placement(s) && Allowed(s, e) && (e.Kill? ==> KillReaches(s, e.pid)) && u <= BOOT && u != t
    requires Ends(s, e) == Some(t)
    ensures TableLaw(s, e, u, Act(s, e).task[u].slots)
  {
    match e {
      case Exit =>
        ExitTable(s, u);
        SweptLaw(s, e, t, u, ExitTask(s).task[u].slots);
      case Kill(n) =>
        KillTable(s, n, t, u);
        SweptLaw(s, e, t, u, KillTask(s, n).task[u].slots);
    }
  }

  lemma OtherLaw(s: State, e: Event, u: nat)
    requires Allowed(s, e) && u < |s.task| && Ends(s, e) == None && (Elsewhere(e) || e.Spawn? || e.Kill?)
    ensures TableLaw(s, e, u, s.task[u].slots)
  {
  }

  /** What every system call does to every lock table, other than those of the task it ends or starts. */
  lemma ActTable(s: State, e: Event, u: nat)
    requires Placement(s) && Allowed(s, e) && (e.Kill? ==> KillReaches(s, e.pid)) && u <= BOOT
    requires Ends(s, e) != Some(u) && !Replaces(s, e, u)
    ensures TableLaw(s, e, u, Act(s, e).task[u].slots)
  {
    if e.Lock? || e.Retry? || e.Unlock? || e.CondWait? {
      LockCallTable(s, e, u);
    } else if Ends(s, e).Some? {
      EndTable(s, e, Ends(s, e).value, u);
    } else {
      OtherLaw(s, e, u);
      OtherTable(s, e, u);
    }
  }

  lemma OtherTable(s: State, e: Event, u: nat)
    requires Placement(s) && Allowed(s, e) && u <= BOOT && Ends(s, e) == None && !Replaces(s, e, u)
    requires Elsewhere(e) || e.Spawn? || e.Kill?
    ensures Act(s, e).task[u].slots == s.task[u].slots
  {
    match e
    case Spawn => SpawnTable(s, u);
    case Kill(_) => assert Act(s, e) == s;
    case _ => ElsewhereTable(s, e, u);
  }

  // ----------------------------------------------------------------- when the tables name every lock held

  /** Every holder is alive and its table names the lock. */
  ghost predicate Named(s: State, h: Holds) {
    forall t, l :: (t, l) in h ==> t < NUM_MAX_TASK && t < |s.task| && s.task[t].status != Exited && Recorded(s, t, l)
  }

  /** A lock that is granted is noted already, or there is room for it. */
  predicate HasRoom(s: State, e: Event)
    requires Allowed(s, e)
  {
    Acquires(s, e).Some? ==>
      Recorded(s, s.current, Acquires(s, e).value) || None in s.task[s.current].slots
  }

  /** Whoever waits for a lock that is released has that lock in slot 0, or holds nothing but what slot 0 names. */
  ghost predicate SparesRecords(s: State, e: Event, h: Holds) {
    forall u, k :: (u, k) in h && u < |s.task| && Ends(s, e) != Some(u) && Loses(s, e, u) ==> TopNames(s, u, k)
  }

  /** Slot 0 names the lock the task waits for, or lock k. */
  predicate TopNames(s: State, u: nat, k: nat)
    requires u < |s.task| && s.task[u].home.Some? && s.task[u].home.value.LockQ?
  {
    |s.task[u].slots| > 0 && (s.task[u].slots[0] == Some(s.task[u].home.value.lock) || s.task[u].slots[0] == Some(k))
  }

  lemma NotedRecords(s: State, r: State, t: nat, l: nat, k: nat)
    requires t < |s.task| && t < |r.task| && Noted(s.task[t].slots, r.task[t].slots, l)
    ensures Recorded(s, t, k) ==> Recorded(r, t, k)
    ensures Recorded(r, t, l) <==> Recorded(s, t, l) || None in s.task[t].slots
  {
    var was, now := s.task[t].slots, r.task[t].slots;
    if None in was {
      var j: nat :| FirstEmpty(was, j) && now == was[j := Some(l)];
      assert now[j] == Some(l);
      if Some(k) in was {
        var i :| 0 <= i < |was| && was[i] == Some(k);
        assert now[i] == Some(k);
      }
    }
  }

  lemma ClearedRecords(s: State, r: State, t: nat, l: nat, k: nat)
    requires t < |s.task| && t < |r.task| && Cleared(s.task[t].slots, r.task[t].slots, l) && Recorded(s, t, k)
    ensures Recorded(r, t, k) <==> s.task[t].slots[0] == Some(l) || s.task[t].slots[0] == Some(k)
  {
    var was, now := s.task[t].slots, r.task[t].slots;
    if was[0] == Some(l) {
      assert now == was;
    } else if was[0] == Some(k) {
      assert now[0] == Some(k);
    }
  }

  lemma StaysAlive(s: State, e: Event, t: nat)
    requires Placement(s) && Allowed(s, e) && t < |s.task| && s.task[t].status != Exited && Ends(s, e) != Some(t)
    ensures t < |Act(s, e).task| && Act(s, e).task[t].status != Exited
  {
    match e {
      case CondWait(l, c) => if t == s.current { WaitOwes(s, l, c); } else { WaitDuty(s, l, c, t); }
      case Lock(l) => AcquireDuty(s, l, t); CallerAlive(s, e);
      case Retry => AcquireDuty(s, s.task[s.current].resume.lock, t); CallerAlive(s, e);
      case Exit => ExitDuty(s, t);
      case Kill(n) => KillDuty(s, n, t);
      case _ => ActOthers(s, e, t);
    }
  }

  lemma CallerAlive(s: State, e: Event)
    requires Placement(s) && Allowed(s, e) && (e.Lock? || e.Retry?)
    ensures Act(s, e).task[s.current].status != Exited
  {
    if Yields(s, e) {
      AcquireDuty(s, if e.Lock? then e.lock else s.task[s.current].resume.lock, s.current);
    } else {
      CallerKeepsRunning(s, e);
    }
  }

  /** A record survives the call exactly if its task does not lose it by waiting. */
  lemma RecordSurvives(s: State, e: Event, h: Holds, t: nat, k: nat)
    requires Placement(s) && Allowed(s, e) && (e.Kill? ==> KillReaches(s, e.pid)) && Named(s, h)
    requires (t, k) in h && Ends(s, e) != Some(t)
    ensures Recorded(Act(s, e), t, k) <==>
      (Loses(s, e, t) ==> TopNames(s, t, k))
  {
    assert !Replaces(s, e, t);
    ActTable(s, e, t);
    OnlyCurrentRuns(s);
    var r := Act(s, e);
    if Acquires(s, e).Some? && t == s.current {
      NotedRecords(s, r, t, Acquires(s, e).value, k);
      LockOnly(s, e, t);
    } else if Loses(s, e, t) {
      ClearedRecords(s, r, t, s.task[t].home.value.lock, k);
    }
  }

  lemma StaysNamed(s: State, e: Event, h: Holds, t: nat, l: nat)
    requires Placement(s) && Allowed(s, e) && (e.Kill? ==> KillReaches(s, e.pid)) && Named(s, h)
    requires HasRoom(s, e) && SparesRecords(s, e, h) && (t, l) in After(h, s, e)
    ensures var r := Act(s, e);
      t < NUM_MAX_TASK && t < |r.task| && r.task[t].status != Exited && Recorded(r, t, l)
  {
    if (t, l) in h {
      StaysAlive(s, e, t);
      RecordSurvives(s, e, h, t, l);
    } else {
      StaysAlive(s, e, t);
      ActTable(s, e, t);
      NotedRecords(s, Act(s, e), t, l, l);
    }
  }

  lemma ForgetsAcquired(s: State, e: Event, h: Holds)
    requires Placement(s) && Allowed(s, e) && !HasRoom(s, e)
    ensures !Named(Act(s, e), After(h, s, e))
  {
    var t, l := s.current, Acquires(s, e).value;
    ActTable(s, e, t);
    NotedRecords(s, Act(s, e), t, l, l);
    assert (t, l) in After(h, s, e);
  }

  lemma ForgetsHeld(s: State, e: Event, h: Holds)
    requires Placement(s) && Allowed(s, e) &&
      (e.Kill? ==> KillReaches(s, e.pid)) && Named(s, h) && !SparesRecords(s, e, h)
    ensures !Named(Act(s, e), After(h, s, e))
  {
    var u, k :| (u, k) in h && u < |s.task| && Ends(s, e) != Some(u) && Loses(s, e, u) && !TopNames(s, u, k);
    RecordSurvives(s, e, h, u, k);
    LoserIsOther(s, e, u);
    OthersKeep(s, e, h, u, k);
  }

  lemma LoserIsOther(s: State, e: Event, u: nat)
    requires Placement(s) && Allowed(s, e) && u < |s.task| && Loses(s, e, u)
    ensures u != s.current
  {
    OnlyCurrentRuns(s);
  }

  lemma OthersKeep(s: State, e: Event, h: Holds, u: nat, k: nat)
    requires Allowed(s, e) && (u, k) in h && u != s.current && Ends(s, e) != Some(u)
    ensures (u, k) in After(h, s, e)
  {
  }

  /**
   The tables keep naming every lock held exactly when a granted lock finds room, and nobody
   who waits for a lock that is released loses the record of one it holds.
   */
  lemma NamedExact(s: State, e: Event, h: Holds)
    requires Placement(s) && Allowed(s, e) && (e.Kill? ==> KillReaches(s, e.pid)) && Named(s, h)
    ensures Named(Act(s, e), After(h, s, e)) <==> HasRoom(s, e) && SparesRecords(s, e, h)
  {
    if !HasRoom(s, e) {
      ForgetsAcquired(s, e, h);
    } else if !SparesRecords(s, e, h) {
      ForgetsHeld(s, e, h);
    } else {
      forall t, l | (t, l) in After(h, s, e)
        ensures t < NUM_MAX_TASK && t < |Act(s, e).task| &&
          Act(s, e).task[t].status != Exited && Recorded(Act(s, e), t, l)
      {
        StaysNamed(s, e, h, t, l);
      }
    }
  }

  // ----------------------------------------------------------------- runs

  lemma RequeueTable(s: State, u: nat)
    requires Placement(s) && u <= BOOT
    ensures Requeue(s).task[u].slots == s.task[u].slots
    ensures s.task[u].status != Exited ==> Requeue(s).task[u].status != Exited
  {
  }

  lemma CheckTable(s: State, now: nat, u: nat)
    requires Placement(s) && u <= BOOT
    ensures CheckSleeping(s, now).task[u].slots == s.task[u].slots
    ensures s.task[u].status != Exited ==> CheckSleeping(s, now).task[u].status != Exited
  {
    var k := FirstDue(s, Q(s, SleepQ), now);
    if k < |Q(s, SleepQ)| {
      MoveOne(s, SleepQ, k, u);
    }
  }

  lemma WakeTable(s: State, c: Clock, u: nat)
    requires Placement(s) && u <= BOOT
    ensures Wake(s, c).task[u].slots == s.task[u].slots
    ensures s.task[u].status != Exited ==> Wake(s, c).task[u].status != Exited
  {
    var m := CheckSleeping(s, c.first);
    WokenKeeps(s, m);
    CheckTable(s, c.first, u);
    CheckTable(m, c.last, u);
  }

  lemma DispatchTable(s: State, u: nat)
    requires Placement(s) && NobodyRuns(s) && Q(s, ReadyQ) != [] && u <= BOOT
    ensures Dispatch(s).task[u].slots == s.task[u].slots
    ensures s.task[u].status != Exited ==> Dispatch(s).task[u].status != Exited
  {
    DispatchInOrder(s);
  }

  lemma ScheduleTable(s: State, c: Clock, u: nat)
    requires Placement(s) && Q(Wake(Requeue(s), c), ReadyQ) != [] && u <= BOOT
    ensures Schedule(s, c).task[u].slots == s.task[u].slots
    ensures s.task[u].status != Exited ==> Schedule(s, c).task[u].status != Exited
  {
    var m := Requeue(s);
    RequeueTable(s, u);
    WakeTable(m, c, u);
    WokenNobodyRuns(m, Wake(m, c));
    DispatchTable(Wake(m, c), u);
  }

  lemma ScheduleNamed(s: State, c: Clock, h: Holds)
    requires Placement(s) && Q(Wake(Requeue(s), c), ReadyQ) != [] && Named(s, h)
    ensures Named(Schedule(s, c), h)
  {
    var r := Schedule(s, c);
    forall t, l | (t, l) in h
      ensures t < NUM_MAX_TASK && t < |r.task| && r.task[t].status != Exited && Recorded(r, t, l)
    {
      ScheduleTable(s, c, t);
    }
  }

  /** The call keeps to the locks of others, and to what keeps the tables right. */
  ghost predicate Orderly(s: State, e: Event, h: Holds) {
    && Allowed(s, e) && Careful(s, e, h) && (Ends(s, e).Some? ==> OnlyOwn(s, Ends(s, e).value, h))
    && HasRoom(s, e) && SparesRecords(s, e, h)
  }

  lemma OrderlyStep(s: State, e: Event, c: Clock, h: Holds)
    requires Placement(s) && Enabled(s, e, c) && Orderly(s, e, h) && MutexSafe(s, h) && Named(s, h)
    ensures MutexSafe(Step(s, e, c), After(h, s, e)) && Named(Step(s, e, c), After(h, s, e))
  {
    MutexStep(s, e, c, h);
    NamedExact(s, e, h);
    ActKeeps(s, e);
    if Yields(s, e) {
      ScheduleNamed(Act(s, e), c, After(h, s, e));
    }
  }

  ghost predicate OrderlyAt(states: seq<State>, events: seq<(Event, Clock)>, h: Holds, i: nat) {
    i < |events| < |states| && Orderly(states[i], events[i].0, Holders(states, events, h, i))
  }

  ghost predicate OrderlyRun(states: seq<State>, events: seq<(Event, Clock)>, h: Holds) {
    Run(states, events) && forall i :: 0 <= i < |events| ==> OrderlyAt(states, events, h, i)
  }

  ghost predicate SafeAndNamed(states: seq<State>, events: seq<(Event, Clock)>, h: Holds, n: nat) {
    && n <= |events| < |states|
    && MutexSafe(states[n], Holders(states, events, h, n)) && Named(states[n], Holders(states, events, h, n))
  }

  lemma OrderlyInRun(states: seq<State>, events: seq<(Event, Clock)>, h: Holds, n: nat)
    requires OrderlyRun(states, events, h) && n < |events| && SafeAndNamed(states, events, h, n)
    ensures SafeAndNamed(states, events, h, n + 1)
  {
    NextInRun(states, events, n);
    assert OrderlyAt(states, events, h, n);
    OrderlyStep(states[n], events[n].0, events[n].1, Holders(states, events, h, n));
  }

  /**
   Over every orderly run: mutual exclusion, and every lock held is in its holder's table, so
   that nothing about the tables of tasks that exit or are killed has to be assumed but that
   they name no lock of others.
   */
  lemma {:induction false} HoldersAreNamed(states: seq<State>, events: seq<(Event, Clock)>, h: Holds, n: nat)
    requires OrderlyRun(states, events, h) && n <= |events| && MutexSafe(states[0], h) && Named(states[0], h)
    ensures SafeAndNamed(states, events, h, n)
  {
    if n == 0 {
    } else {
      HoldersAreNamed(states, events, h, n - 1);
      OrderlyInRun(states, events, h, n - 1);
    }
  }
}
