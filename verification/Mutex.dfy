/**
 Mutex and condition safety over every disciplined run: tasks release only locks they hold,
 initialise only locks nobody holds, and end only with a lock table that names exactly their
 own.  Who holds what is recorded beside the run.
 */
module Mutex {
  import opened Basics
  import opened KernelModel
  import opened KernelSteps
  import opened Sync

  /** The (task, lock) pairs: the task has acquired the lock and not released it since. */
  type Holds = set<(nat, nat)>

  /** The lock this call gives its caller. */
  function Acquires(s: State, e: Event): Option<nat>
    requires Allowed(s, e)
  {
    match e
    case Lock(l) => if s.lock[l] then None else Some(l)
    case Retry => if s.lock[s.task[s.current].resume.lock] then None else Some(s.task[s.current].resume.lock)
    case _ => None
  }

  /** The lock this call makes its caller give up. */
  function Releases(e: Event): Option<nat> {
    match e
    case Unlock(l) => Some(l)
    case CondWait(l, _) => Some(l)
    case _ => None
  }

  /** The task this call ends. */
  function Ends(s: State, e: Event): Option<nat> {
    if |s.task| != NUM_MAX_TASK + 1 then None
    else
      match e
      case Exit => Some(s.current)
      case Kill(n) =>
        var i := FindPid(s.task, n);
        if i < NUM_MAX_TASK && s.task[i].status != Exited then Some(i) else None
      case _ => None
  }

  /** The task's lock table names the lock.  Nothing takes it out again when the lock is released. */
  predicate Recorded(s: State, t: nat, l: nat) {
    t < |s.task| && Some(l) in s.task[t].slots
  }

  /** The lock table names no lock that somebody else holds. */
  ghost predicate OnlyOwn(s: State, t: nat, h: Holds) {
    forall u, l :: (u, l) in h && Recorded(s, t, l) ==> u == t
  }

  /** The lock table names every lock the task holds and none that somebody else holds. */
  ghost predicate Clean(s: State, t: nat, h: Holds) {
    OnlyOwn(s, t, h) && forall l :: (t, l) in h ==> Recorded(s, t, l)
  }

  /** Nobody gives up or initialises a lock that somebody else holds, or meddles with its queue. */
  ghost predicate Careful(s: State, e: Event, h: Holds) {
    && (Releases(e).Some? ==> forall p :: p in h && p.1 == Releases(e).value ==> p.0 == s.current)
    && (e.BlockOn? || e.WakeOne? || e.WakeEvery? ==> !e.queue.LockQ? && !e.queue.CondQ?)
    && (e.Init? && e.target.LockObject? ==> forall p :: p in h ==> p.1 != e.target.lock)
  }

  /** And nobody, by exiting or being killed, releases a lock that is somebody else's or keeps one of its own. */
  ghost predicate Disciplined(s: State, e: Event, h: Holds) {
    Careful(s, e, h) && (Ends(s, e).Some? ==> Clean(s, Ends(s, e).value, h))
  }

  /** What the tasks other than t hold. */
  function Others(h: Holds, t: nat): Holds {
    set p | p in h && p.0 != t
  }

  function After(h: Holds, s: State, e: Event): Holds
    requires Allowed(s, e)
  {
    if Ends(s, e).Some? then Others(h, Ends(s, e).value)
    else if Acquires(s, e).Some? then h + {(s.current, Acquires(s, e).value)}
    else if Releases(e).Some? then h - {(s.current, Releases(e).value)}
    else h
  }

  ghost predicate OneHolder(h: Holds) {
    forall t, u, l :: (t, l) in h && (u, l) in h ==> t == u
  }

  ghost predicate Held(h: Holds, l: nat) {
    exists t :: (t, l) in h
  }

  ghost predicate WordsMatch(locks: seq<bool>, h: Holds) {
    && (forall t, l :: (t, l) in h ==> l < |locks|)
    && (forall l :: 0 <= l < |locks| ==> (locks[l] <==> Held(h, l)))
  }

  /** A lock has at most one holder, it is LOCKED exactly when it has one, and nobody queues for a free lock. */
  ghost predicate MutexSafe(s: State, h: Holds) {
    OneHolder(h) && WordsMatch(s.lock, h) && forall l :: 0 <= l < |s.lock| && !s.lock[l] ==> Q(s, LockQ(l)) == []
  }

  /** The lock words after a call. */
  function Words(s: State, e: Event): seq<bool>
    requires Allowed(s, e)
  {
    match e
    case Lock(l) => s.lock[l := true]
    case Retry => s.lock[s.task[s.current].resume.lock := true]
    case Unlock(l) => s.lock[l := false]
    case CondWait(l, _) => s.lock[l := false]
    case Init(LockObject(l)) => s.lock[l := false]
    case _ => s.lock
  }

  lemma LockWords(s: State, e: Event)
    requires Placement(s) && Allowed(s, e) && !e.Exit? && !e.Kill?
    ensures Act(s, e).lock == Words(s, e)
  {
    match e
    case Unlock(l) => ReleaseWord(s, l);
    case CondWait(l, c) => WaitWord(s, l, c);
    case Lock(l) => AcquireWord(s, l);
    case Retry => AcquireWord(s, s.task[s.current].resume.lock);
    case Init(o) => ResetKeeps(s, o);
    case _ => OtherLocks(s, e);
  }

  lemma OtherLocks(s: State, e: Event)
    requires Placement(s) && Allowed(s, e) && !e.Exit? && !e.Kill?
    requires !e.Unlock? && !e.CondWait? && !e.Lock? && !e.Retry? && !e.Init?
    ensures Act(s, e).lock == s.lock
  {
  }

  lemma AcquireWord(s: State, l: nat)
    requires Placement(s) && s.current < NUM_MAX_TASK && s.task[s.current].status == Running && l < |s.lock|
    ensures Acquire(s, l).lock == s.lock[l := true]
  {
    OnlyCurrentRuns(s);
    if s.lock[l] {
      assert s.lock == s.lock[l := true];
    }
  }

  lemma ReleaseWord(s: State, l: nat)
    requires Placement(s) && l < |s.lock|
    ensures Release(s, l).lock == s.lock[l := false]
  {
  }

  lemma WaitWord(s: State, l: nat, c: nat)
    requires Placement(s) && s.current < NUM_MAX_TASK && s.task[s.current].status == Running && l < |s.lock|
    requires CondQ(c) in s.queue
    ensures WaitOnCondition(s, l, c).lock == s.lock[l := false]
  {
    OnlyCurrentRuns(s);
    ReleaseWord(Park(SetResume(s, Acquiring(l)), s.current, CondQ(c), Blocked), l);
  }

  /** Initialising a lock is safe exactly when nobody holds it. */
  lemma LockInitExact(s: State, h: Holds, l: nat)
    requires Placement(s) && Allowed(s, Init(LockObject(l))) && MutexSafe(s, h)
    ensures MutexSafe(Act(s, Init(LockObject(l))), h) <==> !Held(h, l)
  {
    ResetKeeps(s, LockObject(l));
    assert Act(s, Init(LockObject(l))) == s.(lock := s.lock[l := false]);
    if !Held(h, l) {
      assert s.lock[l := false] == s.lock;
    }
  }

  // ----------------------------------------------------------------- do_exit and do_kill

  lemma SlotsSplit(slots: seq<Option<nat>>, j: nat, l: nat)
    requires j < |slots|
    ensures Some(l) in slots[j..] <==> slots[j] == Some(l) || Some(l) in slots[j + 1..]
  {
    assert slots[j..] == [slots[j]] + slots[j + 1..];
  }

  /** One turn of the loop over the table. */
  lemma SlotReleased(s: State, t: nat, j: nat, l: nat) returns (m: State)
    requires Formed(s) && t <= BOOT && s.task[t].home == None && j < LOCK_MAX_NUM == |s.task[t].slots| && l < |s.lock|
    ensures Formed(m) && m.task[t] == s.task[t] && |m.lock| == |s.lock|
    ensures ReleaseSlots(s, t, j) == ReleaseSlots(m, t, j + 1)
    ensures m.lock[l] == (s.lock[l] && s.task[t].slots[j] != Some(l))
    ensures s.lock[l] && s.task[t].slots[j] == Some(l) ==> Q(m, LockQ(l)) == []
  {
    m := s;
    ReleaseSlotsStep(s, t, j);
    if s.task[t].slots[j].Some? {
      m := Release(s, s.task[t].slots[j].value);
      assert SameIdentity(s.task[t], m.task[t]);
    }
  }

  lemma ReleasingKeepsEmpty(s: State, t: nat, j: nat, l: nat)
    requires Formed(s) && t <= BOOT && j <= LOCK_MAX_NUM && Q(s, LockQ(l)) == []
    ensures Q(ReleaseSlots(s, t, j), LockQ(l)) == []
  {
    assert Woken(s, ReleaseSlots(s, t, j));
  }

  /** The locks in the table from slot j on are unlocked and their queues emptied; the others stay as they are. */
  lemma {:induction false} SlotsReleased(s: State, t: nat, j: nat, l: nat)
    requires Formed(s) && t <= BOOT && s.task[t].home == None && j <= LOCK_MAX_NUM == |s.task[t].slots| && l < |s.lock|
    ensures var r, recorded := ReleaseSlots(s, t, j), Some(l) in s.task[t].slots[j..];
      && |r.lock| == |s.lock| && r.lock[l] == (s.lock[l] && !recorded)
      && (s.lock[l] && recorded ==> Q(r, LockQ(l)) == [])
    decreases LOCK_MAX_NUM - j
  {
    if j == LOCK_MAX_NUM {
    } else {
      var m := SlotReleased(s, t, j, l);
      SlotsSplit(s.task[t].slots, j, l);
      SlotsReleased(m, t, j + 1, l);
      if Q(m, LockQ(l)) == [] {
        ReleasingKeepsEmpty(m, t, j + 1, l);
      }
    }
  }

  /** From s to r the lock was released if task t's table names it, and otherwise left alone. */
  predicate Freed(s: State, r: State, t: nat, l: nat)
    requires l < |s.lock|
  {
    && |r.lock| == |s.lock| && r.lock[l] == (s.lock[l] && !Recorded(s, t, l))
    && ((s.lock[l] && Recorded(s, t, l)) || Q(s, LockQ(l)) == [] ==> Q(r, LockQ(l)) == [])
  }

  lemma ReleasedFrom(b: State, t: nat, l: nat)
    requires Formed(b) && t < NUM_MAX_TASK && b.task[t].home == None && l < |b.lock|
    ensures Freed(b, WakeAll(ReleaseSlots(b, t), WaitQ(t)), t, l)
  {
    assert SlotsOk(b.task[t].slots, |b.lock|);
    assert b.task[t].slots[0..] == b.task[t].slots;
    SlotsReleased(b, t, 0, l);
    var m := ReleaseSlots(b, t);
    assert Woken(b, m) && Woken(m, WakeAll(m, WaitQ(t)));
  }

  /** do_kill that finds nobody to end changes nothing. */
  lemma KillNobody(s: State, n: nat)
    requires Placement(s) && Ends(s, Kill(n)) == None
    ensures KillTask(s, n) == s
  {
    var i := FindPid(s.task, n);
    assert i == NUM_MAX_TASK || s.task[i].status == Exited;
  }

  lemma ExitReleases(s: State, l: nat)
    requires Placement(s) && s.current < NUM_MAX_TASK && s.task[s.current].status == Running && l < |s.lock|
    ensures Freed(s, ExitTask(s), s.current, l)
  {
    OnlyCurrentRuns(s);
    ReleasedFrom(s, s.current, l);
  }

  lemma KillReleases(s: State, n: nat, l: nat)
    requires Placement(s) && KillReaches(s, n) && l < |s.lock|
    requires FindPid(s.task, n) < NUM_MAX_TASK && s.task[FindPid(s.task, n)].status != Exited
    ensures Freed(s, KillTask(s, n), FindPid(s.task, n), l)
  {
    var i := FindPid(s.task, n);
    DetachedFits(s, i);
    ReleasedFrom(SetStatus(Detach(s, i), i, Exited), i, l);
  }

  lemma EndReleases(s: State, e: Event, t: nat, l: nat)
    requires Placement(s) && Allowed(s, e) && (e.Kill? ==> KillReaches(s, e.pid))
    requires Ends(s, e) == Some(t) && l < |s.lock|
    ensures Freed(s, Act(s, e), t, l)
  {
    match e
    case Exit => ExitReleases(s, l);
    case Kill(n) => KillReleases(s, n, l);
  }

  /** The lock words after the recorded ones were released match the other tasks' holdings exactly for a clean table. */
  lemma CleanMatches(s: State, t: nat, h: Holds, locks: seq<bool>)
    requires OneHolder(h) && WordsMatch(s.lock, h) && |locks| == |s.lock|
    requires forall l :: 0 <= l < |locks| ==> locks[l] == (s.lock[l] && !Recorded(s, t, l))
    ensures OneHolder(Others(h, t))
    ensures WordsMatch(locks, Others(h, t)) <==> Clean(s, t, h)
  {
    if Clean(s, t, h) {
      CleanSuffices(s, t, h, locks);
    } else {
      if u, l :| (u, l) in h && Recorded(s, t, l) && u != t {
        assert (u, l) in Others(h, t) && Held(Others(h, t), l);
        assert !locks[l];
      } else {
        var l :| (t, l) in h && !Recorded(s, t, l);
        assert Held(h, l) && locks[l];
        assert !Held(Others(h, t), l);
      }
    }
  }

  lemma CleanSuffices(s: State, t: nat, h: Holds, locks: seq<bool>)
    requires OneHolder(h) && WordsMatch(s.lock, h) && |locks| == |s.lock| && Clean(s, t, h)
    requires forall l :: 0 <= l < |locks| ==> locks[l] == (s.lock[l] && !Recorded(s, t, l))
    ensures WordsMatch(locks, Others(h, t))
  {
    forall l | 0 <= l < |locks| ensures locks[l] <==> Held(Others(h, t), l) {
      if locks[l] {
        var u :| (u, l) in h;
        assert (u, l) in Others(h, t);
      }
    }
  }

  /**
   do_exit and do_kill release the locks the ended task's table names.  Mutual exclusion
   survives exactly when the table is clean: it must name every lock the task holds and none
   that another task holds by now.
   */
  lemma EndExact(s: State, e: Event, h: Holds, t: nat)
    requires Placement(s) && Allowed(s, e) && (e.Kill? ==> KillReaches(s, e.pid)) && Ends(s, e) == Some(t)
    requires MutexSafe(s, h)
    ensures MutexSafe(Act(s, e), Others(h, t)) <==> Clean(s, t, h)
  {
    forall l: nat | l < |s.lock| ensures Freed(s, Act(s, e), t, l) {
      EndReleases(s, e, t, l);
    }
    FreedExact(s, Act(s, e), t, h);
  }

  lemma FreedExact(s: State, r: State, t: nat, h: Holds)
    requires MutexSafe(s, h) && |s.lock| > 0 && forall l: nat :: l < |s.lock| ==> Freed(s, r, t, l)
    ensures MutexSafe(r, Others(h, t)) <==> Clean(s, t, h)
  {
    assert Freed(s, r, t, 0);
    forall l | 0 <= l < |r.lock|
      ensures r.lock[l] == (s.lock[l] && !Recorded(s, t, l)) && (!r.lock[l] ==> Q(r, LockQ(l)) == [])
    {
      assert Freed(s, r, t, l);
    }
    CleanMatches(s, t, h, r.lock);
  }

  lemma LockQueueEmpty(s: State, e: Event, l: nat)
    requires Placement(s) && Allowed(s, e) && Releases(e) == Some(l) && (s.lock[l] || Q(s, LockQ(l)) == [])
    ensures Q(Act(s, e), LockQ(l)) == []
  {
  }

  /** Releasing a lock is safe exactly when nobody else holds it. */
  lemma UnlockExact(s: State, h: Holds, l: nat)
    requires Placement(s) && Allowed(s, Unlock(l)) && MutexSafe(s, h)
    ensures MutexSafe(Act(s, Unlock(l)), h - {(s.current, l)}) <==> forall t :: (t, l) in h ==> t == s.current
  {
    if forall t :: (t, l) in h ==> t == s.current {
      MutexCall(s, Unlock(l), h);
    } else {
      var t :| (t, l) in h && t != s.current;
      UnlockBreaks(s, h, l, t);
    }
  }

  lemma UnlockBreaks(s: State, h: Holds, l: nat, t: nat)
    requires Placement(s) && Allowed(s, Unlock(l)) && (t, l) in h && t != s.current
    ensures !MutexSafe(Act(s, Unlock(l)), h - {(s.current, l)})
  {
    ReleaseWord(s, l);
    assert (t, l) in h - {(s.current, l)} && Held(h - {(s.current, l)}, l);
  }

  /** A free lock's queue stays empty. */
  lemma FreeStaysEmpty(s: State, e: Event, h: Holds, l: nat)
    requires Placement(s) && Allowed(s, e) && !e.Exit? && !e.Kill? && Disciplined(s, e, h) && MutexSafe(s, h)
    requires l < |s.lock| && !Words(s, e)[l]
    ensures Q(Act(s, e), LockQ(l)) == []
  {
    if Releases(e) == Some(l) {
      LockQueueEmpty(s, e, l);
    } else {
      FreeIsUntouched(s, e, h, l);
      ActFrame(s, e, LockQ(l));
    }
  }

  lemma FreeIsUntouched(s: State, e: Event, h: Holds, l: nat)
    requires Allowed(s, e) && !e.Exit? && !e.Kill? && Disciplined(s, e, h) && WordsMatch(s.lock, h)
    requires l < |s.lock| && !Words(s, e)[l] && Releases(e) != Some(l)
    ensures !s.lock[l] && !Touches(s, e, LockQ(l))
  {
  }

  lemma HoldersMove(s: State, e: Event, h: Holds)
    requires Allowed(s, e) && !e.Exit? && !e.Kill? && Disciplined(s, e, h) && OneHolder(h) && WordsMatch(s.lock, h)
    ensures OneHolder(After(h, s, e)) && WordsMatch(Words(s, e), After(h, s, e))
  {
  }

  lemma MutexCall(s: State, e: Event, h: Holds)
    requires Placement(s) && Allowed(s, e) && !e.Exit? && !e.Kill? && Disciplined(s, e, h) && MutexSafe(s, h)
    ensures MutexSafe(Act(s, e), After(h, s, e))
  {
    var a := Act(s, e);
    HoldersMove(s, e, h);
    LockWords(s, e);
    forall l | 0 <= l < |a.lock| && !a.lock[l] ensures Q(a, LockQ(l)) == [] {
      FreeStaysEmpty(s, e, h, l);
    }
  }

  lemma MutexAct(s: State, e: Event, h: Holds)
    requires Placement(s) && Allowed(s, e) && (e.Kill? ==> KillReaches(s, e.pid))
    requires Disciplined(s, e, h) && MutexSafe(s, h)
    ensures MutexSafe(Act(s, e), After(h, s, e))
  {
    if Ends(s, e).Some? {
      EndExact(s, e, h, Ends(s, e).value);
    } else if e.Kill? {
      assert Act(s, e) == s;
    } else {
      MutexCall(s, e, h);
    }
  }

  lemma StepLocks(s: State, e: Event, c: Clock)
    requires Placement(s) && Enabled(s, e, c)
    ensures Step(s, e, c).lock == Act(s, e).lock && forall l :: Q(Step(s, e, c), LockQ(l)) == Q(Act(s, e), LockQ(l))
  {
    StepAfterAct(s, e, c, BlockQ);
    forall l ensures Q(Step(s, e, c), LockQ(l)) == Q(Act(s, e), LockQ(l)) {
      StepAfterAct(s, e, c, LockQ(l));
    }
  }

  lemma MutexSame(a: State, r: State, h: Holds)
    requires MutexSafe(a, h) && r.lock == a.lock && forall l :: Q(r, LockQ(l)) == Q(a, LockQ(l))
    ensures MutexSafe(r, h)
  {
  }

  lemma MutexStep(s: State, e: Event, c: Clock, h: Holds)
    requires Placement(s) && Enabled(s, e, c) && Disciplined(s, e, h) && MutexSafe(s, h)
    ensures MutexSafe(Step(s, e, c), After(h, s, e))
  {
    var r, a := Step(s, e, c), Act(s, e);
    MutexAct(s, e, h);
    StepLocks(s, e, c);
    MutexSame(a, r, After(h, s, e));
  }

  // ----------------------------------------------------------------- runs

  /** Who holds what after the first n events. */
  ghost function Holders(states: seq<State>, events: seq<(Event, Clock)>, h: Holds, n: nat): Holds
    requires n <= |events| < |states|
  {
    if n == 0 then h
    else
      var before := Holders(states, events, h, n - 1);
      if Allowed(states[n - 1], events[n - 1].0) then After(before, states[n - 1], events[n - 1].0) else before
  }

  ghost predicate DisciplinedAt(states: seq<State>, events: seq<(Event, Clock)>, h: Holds, i: nat) {
    i < |events| < |states| && Disciplined(states[i], events[i].0, Holders(states, events, h, i))
  }

  ghost predicate DisciplinedRun(states: seq<State>, events: seq<(Event, Clock)>, h: Holds) {
    && Run(states, events)
    && forall i :: 0 <= i < |events| ==> DisciplinedAt(states, events, h, i)
  }

  lemma MutexInRun(states: seq<State>, events: seq<(Event, Clock)>, h: Holds, i: nat)
    requires DisciplinedRun(states, events, h) && i < |events| && MutexSafe(states[i], Holders(states, events, h, i))
    ensures MutexSafe(states[i + 1], Holders(states, events, h, i + 1))
  {
    NextInRun(states, events, i);
    assert DisciplinedAt(states, events, h, i);
    MutexStep(states[i], events[i].0, events[i].1, Holders(states, events, h, i));
  }

  /** Mutual exclusion in every state of every disciplined run. */
  lemma {:induction false} MutualExclusion(states: seq<State>, events: seq<(Event, Clock)>, h: Holds, n: nat)
    requires DisciplinedRun(states, events, h) && MutexSafe(states[0], h) && n <= |events|
    ensures MutexSafe(states[n], Holders(states, events, h, n))
  {
    if n == 0 {
    } else {
      MutualExclusion(states, events, h, n - 1);
      MutexInRun(states, events, h, n - 1);
    }
  }

  // ----------------------------------------------------------------- waiting on a condition

  /** The task has still to get this lock before it returns to user code. */
  predicate Owes(s: State, t: nat, l: nat) {
    t < |s.task| && s.task[t].status != Exited && s.task[t].resume == Acquiring(l)
  }

  /** What a task owes, it owes until it retries and gets the lock, exits or is killed. */
  lemma OwesUntilRetry(s: State, e: Event, t: nat, l: nat)
    requires Placement(s) && Allowed(s, e) && Ends(s, e) != Some(t) && Owes(s, t, l)
    ensures Owes(Act(s, e), t, l) || (s.current == t && e == Retry && Acquires(s, e) == Some(l))
  {
    match e
    case CondWait(k, c) => WaitDuty(s, k, c, t);
    case Lock(k) => AcquireDuty(s, k, t);
    case Retry => AcquireDuty(s, s.task[s.current].resume.lock, t);
    case Exit => ExitDuty(s, t);
    case Kill(n) => KillDuty(s, n, t);
    case _ => ActOthers(s, e, t);
  }

  lemma ExitDuty(s: State, t: nat)
    requires Placement(s) && s.current < NUM_MAX_TASK && s.task[s.current].status == Running
    requires t < |s.task| && s.task[t].status != Exited && t != s.current
    ensures SameDuty(s, ExitTask(s), t)
  {
    var m := ReleaseSlots(s, s.current);
    var w := WakeAll(m, WaitQ(s.current));
    assert SameIdentity(s.task[t], m.task[t]) && SameIdentity(m.task[t], w.task[t]);
  }

  lemma KillDuty(s: State, n: nat, t: nat)
    requires Placement(s) && t < |s.task| && s.task[t].status != Exited && Ends(s, Kill(n)) != Some(t)
    ensures SameDuty(s, KillTask(s, n), t)
  {
    if FindPid(s.task, n) < NUM_MAX_TASK {
      KillSpares(s, n, t);
    }
  }

  lemma AcquireDuty(s: State, k: nat, t: nat)
    requires Placement(s) && s.current < NUM_MAX_TASK && s.task[s.current].status == Running && k < |s.lock|
    requires t < |s.task| && s.task[t].status != Exited
    ensures t != s.current ==> SameDuty(s, Acquire(s, k), t)
    ensures s.lock[k] ==> Owes(Acquire(s, k), s.current, k)
  {
    OnlyCurrentRuns(s);
  }

  lemma WaitDuty(s: State, k: nat, c: nat, t: nat)
    requires Placement(s) && s.current < NUM_MAX_TASK && s.task[s.current].status == Running && k < |s.lock|
    requires CondQ(c) in s.queue
    requires t < |s.task| && s.task[t].status != Exited && t != s.current
    ensures SameDuty(s, WaitOnCondition(s, k, c), t)
  {
    OnlyCurrentRuns(s);
    var p := Park(SetResume(s, Acquiring(k)), s.current, CondQ(c), Blocked);
    assert SameIdentity(p.task[t], Release(p, k).task[t]);
  }

  /** The task is still alive and has the same to do. */
  predicate SameDuty(s: State, r: State, t: nat) {
    t < |s.task| && t < |r.task| && r.task[t].resume == s.task[t].resume && r.task[t].status != Exited
  }

  lemma WokenDuty(s: State, r: State, t: nat)
    requires Placement(s) && Woken(s, r) && t < |s.task| && s.task[t].status != Exited
    ensures SameDuty(s, r, t)
  {
  }

  lemma BarrierDuty(s: State, b: nat, t: nat)
    requires Placement(s) && s.current < NUM_MAX_TASK && s.task[s.current].status == Running && b < |s.barrier|
    requires t < |s.task| && s.task[t].status != Exited
    ensures SameDuty(s, BarrierWait(s, b), t)
  {
  }

  lemma SleepDuty(s: State, deadline: nat, t: nat)
    requires Placement(s) && s.current < NUM_MAX_TASK && s.task[s.current].status == Running
    requires t < |s.task| && s.task[t].status != Exited
    ensures SameDuty(s, SleepUntil(s, deadline), t)
  {
  }

  lemma SpawnDuty(s: State, t: nat)
    requires Placement(s) && t < |s.task| && s.task[t].status != Exited
    ensures SameDuty(s, SpawnTask(s), t)
  {
  }

  lemma WaitPidDuty(s: State, n: nat, t: nat)
    requires Placement(s) && s.current < NUM_MAX_TASK && s.task[s.current].status == Running
    requires t < |s.task| && s.task[t].status != Exited
    ensures SameDuty(s, WaitForPid(s, n), t)
  {
  }

  lemma SemDuty(s: State, x: nat, t: nat)
    requires Placement(s) && s.current < NUM_MAX_TASK && s.task[s.current].status == Running && x < |s.sem|
    requires t < |s.task| && s.task[t].status != Exited
    ensures SameDuty(s, SemUp(s, x), t) && SameDuty(s, SemDown(s, x), t)
  {
  }

  lemma ActOthers(s: State, e: Event, t: nat)
    requires Placement(s) && Allowed(s, e) && !e.Exit? && !e.Kill? && !e.CondWait? && !e.Lock? && !e.Retry?
    requires t < |s.task| && s.task[t].status != Exited
    ensures SameDuty(s, Act(s, e), t)
  {
    match e
    case WakeOne(q) => WokenDuty(s, UnblockOne(s, q), t);
    case WakeEvery(q) => WokenDuty(s, UnblockAll(s, q), t);
    case Unlock(l) => WokenDuty(s, Release(s, l), t);
    case Signal(c) => WokenDuty(s, WakeFirst(s, CondQ(c)), t);
    case Broadcast(c) => WokenDuty(s, WakeAll(s, CondQ(c)), t);
    case Up(x) => SemDuty(s, x, t);
    case Down(x) => SemDuty(s, x, t);
    case Arrive(b) => BarrierDuty(s, b, t);
    case SleepFor(time, now) => SleepDuty(s, (now + time) % WORD, t);
    case Spawn => SpawnDuty(s, t);
    case WaitPid(n) => WaitPidDuty(s, n, t);
    case BlockOn(q) => OnlyCurrentRuns(s);
    case Init(o) => ResetKeeps(s, o);
    case Timer =>
  }

  lemma WakeOwes(m: State, c: Clock, t: nat, l: nat)
    requires Placement(m) && Owes(m, t, l)
    ensures Owes(Wake(m, c), t, l)
  {
  }

  lemma DispatchOwes(w: State, t: nat, l: nat)
    requires Placement(w) && NobodyRuns(w) && Q(w, ReadyQ) != [] && Owes(w, t, l)
    ensures Owes(Dispatch(w), t, l)
  {
  }

  lemma ScheduleOwes(s: State, c: Clock, t: nat, l: nat)
    requires Placement(s) && Q(Wake(Requeue(s), c), ReadyQ) != [] && Owes(s, t, l)
    ensures Owes(Schedule(s, c), t, l)
  {
    WokenNobodyRuns(Requeue(s), Wake(Requeue(s), c));
    WakeOwes(Requeue(s), c, t, l);
    DispatchOwes(Wake(Requeue(s), c), t, l);
  }

  lemma StepOwes(s: State, e: Event, c: Clock, t: nat, l: nat)
    requires Placement(s) && Enabled(s, e, c) && Ends(s, e) != Some(t)
    requires Owes(s, t, l) || (s.current == t && e.CondWait? && e.lock == l)
    ensures Owes(Step(s, e, c), t, l) || (s.current == t && e == Retry && Acquires(s, e) == Some(l))
  {
    if s.current == t && e.CondWait? {
      WaitOwes(s, e.lock, e.cond);
    } else {
      OwesUntilRetry(s, e, t, l);
    }
    ActKeeps(s, e);
    if Yields(s, e) && Owes(Act(s, e), t, l) {
      ScheduleOwes(Act(s, e), c, t, l);
    }
  }

  lemma WaitOwes(s: State, l: nat, c: nat)
    requires Placement(s) && Allowed(s, CondWait(l, c))
    ensures Owes(Act(s, CondWait(l, c)), s.current, l)
  {
    OnlyCurrentRuns(s);
    var p := Park(SetResume(s, Acquiring(l)), s.current, CondQ(c), Blocked);
    assert SameIdentity(p.task[s.current], Release(p, l).task[s.current]);
  }

  /** At step m the task comes back from its wait and holds the lock. */
  ghost predicate Regains(states: seq<State>, events: seq<(Event, Clock)>, h: Holds, t: nat, l: nat, m: nat)
    requires m < |events| < |states|
  {
    states[m].current == t && events[m].0 == Retry && (t, l) in Holders(states, events, h, m + 1)
  }

  lemma OwesInRun(states: seq<State>, events: seq<(Event, Clock)>, h: Holds, t: nat, l: nat, k: nat)
    requires DisciplinedRun(states, events, h) && k < |events| && Ends(states[k], events[k].0) != Some(t)
    requires Owes(states[k], t, l) || (states[k].current == t && events[k].0.CondWait? && events[k].0.lock == l)
    ensures Owes(states[k + 1], t, l) || Regains(states, events, h, t, l, k)
  {
    NextInRun(states, events, k);
    assert DisciplinedAt(states, events, h, k);
    StepOwes(states[k], events[k].0, events[k].1, t, l);
  }

  /** do_condition_wait does not return until its caller holds the lock again, if it is not killed meanwhile. */
  lemma {:induction false} WaitReturnsHolding(states: seq<State>, events: seq<(Event, Clock)>, h: Holds, i: nat, n: nat)
    requires DisciplinedRun(states, events, h) && i < n <= |events| && events[i].0.CondWait?
    requires forall k :: i < k < n ==> Ends(states[k], events[k].0) != Some(states[i].current)
    ensures var t, l := states[i].current, events[i].0.lock;
      Owes(states[n], t, l) || exists m :: i < m < n && Regains(states, events, h, t, l, m)
  {
    var t, l := states[i].current, events[i].0.lock;
    if i == n - 1 {
      OwesInRun(states, events, h, t, l, n - 1);
      assert events[i].0 != Retry;
    } else {
      WaitReturnsHolding(states, events, h, i, n - 1);
      if Owes(states[n - 1], t, l) {
        OwesInRun(states, events, h, t, l, n - 1);
      }
    }
  }

  lemma RunSuffix(states: seq<State>, events: seq<(Event, Clock)>, i: nat)
    requires Run(states, events) && i <= |events|
    ensures Run(states[i..], events[i..])
  {
    RunKeepsPlacement(states, events, i);
    forall k | 0 <= k < |events[i..]| ensures StepAt(states[i..], events[i..], k) {
      assert StepAt(states, events, i + k);
    }
  }

  /** The queue a waiter joins, with the waiter in it. */
  lemma WaitJoins(states: seq<State>, events: seq<(Event, Clock)>, i: nat)
    requires Run(states, events) && i < |events| && events[i].0.CondWait?
    ensures var q := CondQ(events[i].0.cond); Q(states[i + 1], q) == Q(states[i], q) + [states[i].current]
  {
    NextInRun(states, events, i);
    WaitServes(states[i], events[i].0.lock, events[i].0.cond);
    StepAfterAct(states[i], events[i].0, events[i].1, CondQ(events[i].0.cond));
  }

  lemma SignalTakes(s: State, e: Event, c: nat)
    requires Q(s, CondQ(c)) != []
    ensures e == Signal(c) ==> |Leaves(s, e, CondQ(c))| == 1
    ensures e == Broadcast(c) ==> Leaves(s, e, CondQ(c)) == Q(s, CondQ(c))
  {
  }

  /** The queue is not empty while fewer tasks have left it than were there at first. */
  lemma StillWaiting(states: seq<State>, events: seq<(Event, Clock)>, q: QueueId, ahead: nat, n: nat)
    requires Run(states, events) && n <= |events| && Served(q) && |Q(states[0], q)| > ahead
    requires |Left(states, events, q, n)| <= ahead
    requires forall i :: 0 <= i < n ==> Proper(events[i].0, q)
    ensures Q(states[n], q) != []
  {
    ServedInOrder(states, events, q, n);
    assert |Q(states[0], q) + Joined(states, events, q, n)| == |Left(states, events, q, n) + Q(states[n], q)|;
  }

  lemma CountLast(events: seq<(Event, Clock)>, n: nat, e: Event)
    requires 0 < n <= |events|
    ensures Count(events[..n], e) == Count(events[..n - 1], e) + (if events[n - 1].0 == e then 1 else 0)
  {
    assert events[..n][..n - 1] == events[..n - 1] && events[..n][n - 1] == events[n - 1];
  }

  /** As long as the waiter with `ahead` tasks before it has not left, every signal takes one task before it. */
  ghost predicate Counted(states: seq<State>, events: seq<(Event, Clock)>, c: nat, ahead: nat, n: nat)
    requires n <= |events| < |states|
  {
    var left := |Left(states, events, CondQ(c), n)|;
    left > ahead || (Count(events[..n], Signal(c)) <= left && forall i :: 0 <= i < n ==> events[i].0 != Broadcast(c))
  }

  lemma CountedStep(states: seq<State>, events: seq<(Event, Clock)>, c: nat, ahead: nat, n: nat)
    requires Run(states, events) && n < |events| && |Q(states[0], CondQ(c))| > ahead
    requires forall i :: 0 <= i < n ==> Proper(events[i].0, CondQ(c))
    requires Counted(states, events, c, ahead, n)
    ensures Counted(states, events, c, ahead, n + 1)
  {
    var q, s, e := CondQ(c), states[n], events[n].0;
    CountLast(events, n + 1, Signal(c));
    var left := Left(states, events, q, n);
    assert |Left(states, events, q, n + 1)| == |left| + |Leaves(s, e, q)|;
    if |left| <= ahead {
      StillWaiting(states, events, q, ahead, n);
      SignalTakes(s, e, c);
      BroadcastTakesAll(states, events, c, ahead, n);
    }
  }

  lemma SignalsCount(states: seq<State>, events: seq<(Event, Clock)>, c: nat, ahead: nat, n: nat)
    requires Run(states, events) && n <= |events| && |Q(states[0], CondQ(c))| > ahead
    requires forall i :: 0 <= i < n ==> Proper(events[i].0, CondQ(c))
    ensures Counted(states, events, c, ahead, n)
  {
    var k := 0;
    while k < n
      invariant 0 <= k <= n && Counted(states, events, c, ahead, k)
    {
      CountedStep(states, events, c, ahead, k);
      k := k + 1;
    }
  }

  lemma BroadcastTakesAll(states: seq<State>, events: seq<(Event, Clock)>, c: nat, ahead: nat, n: nat)
    requires Run(states, events) && n < |events| && |Q(states[0], CondQ(c))| > ahead
    requires forall i :: 0 <= i < n ==> Proper(events[i].0, CondQ(c))
    ensures events[n].0 == Broadcast(c) ==> |Left(states, events, CondQ(c), n)| + |Q(states[n], CondQ(c))| > ahead
  {
    var q := CondQ(c);
    ServedInOrder(states, events, q, n);
    assert |Q(states[0], q) + Joined(states, events, q, n)| == |Left(states, events, q, n) + Q(states[n], q)|;
  }

  /**
   No signal is lost on a waiter: from the moment do_condition_wait has given up the lock,
   the caller leaves the condition's queue no later than at the first broadcast, or at the
   signal that follows one signal for each task that was already waiting.
   */
  lemma SignalNotMissed(states: seq<State>, events: seq<(Event, Clock)>, i: nat, n: nat)
    requires Run(states, events) && i < n <= |events| && events[i].0.CondWait?
    requires forall k :: i < k < n ==> Proper(events[k].0, CondQ(events[i].0.cond))
    ensures var q := CondQ(events[i].0.cond);
      var ahead, later := |Q(states[i], q)|, events[i + 1..n];
      var left := Left(states[i + 1..], events[i + 1..], q, n - i - 1);
      (Count(later, Signal(q.cond)) > ahead || exists k :: i < k < n && events[k].0 == Broadcast(q.cond))
      ==> |left| > ahead && left[ahead] == states[i].current
  {
    var c := events[i].0.cond;
    var q, ahead, t := CondQ(c), |Q(states[i], CondQ(c))|, states[i].current;
    WaitJoins(states, events, i);
    RunSuffix(states, events, i + 1);
    SignalsInSuffix(states[i + 1..], events[i + 1..], q, t, ahead, n - i - 1);
    assert events[i + 1..][..n - i - 1] == events[i + 1..n];
    if k :| i < k < n && events[k].0 == Broadcast(c) {
      assert events[i + 1..][k - i - 1] == events[k];
    }
  }

  lemma SignalsInSuffix(states: seq<State>, events: seq<(Event, Clock)>, q: QueueId, t: nat, ahead: nat, n: nat)
    requires Run(states, events) && q.CondQ? && n <= |events| && |Q(states[0], q)| == ahead + 1
    requires Q(states[0], q)[ahead] == t
    requires forall i :: 0 <= i < n ==> Proper(events[i].0, q)
    ensures var left := Left(states, events, q, n);
      (Count(events[..n], Signal(q.cond)) > ahead || exists k :: 0 <= k < n && events[k].0 == Broadcast(q.cond))
      ==> |left| > ahead && left[ahead] == t
  {
    SignalsCount(states, events, q.cond, ahead, n);
    ServedInOrder(states, events, q, n);
    var left := Left(states, events, q, n);
    assert |left| > ahead ==> (left + Q(states[n], q))[ahead] == left[ahead];
    assert (Q(states[0], q) + Joined(states, events, q, n))[ahead] == t;
  }
}
