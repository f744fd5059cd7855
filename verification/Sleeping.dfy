/**
 Sleeping.  What do_sleep and the checks of the scheduler do to the sleeping queue, told by
 deadlines and places in the queue: who is woken, when, and that nobody sleeps past its turn.
 */
module Sleeping {
  import opened Basics
  import opened KernelModel
  import opened KernelSteps
  import opened Sync
  import opened Fairness
  import Mutex

  // ----------------------------------------------------------------- one call of do_sleep

  /** The caller goes to the end of the sleeping queue, to wake after the 32-bit sum of now and time. */
  lemma SleepParks(s: State, time: nat, now: nat)
    requires Placement(s) && Allowed(s, SleepFor(time, now))
    ensures var t, r := s.current, Act(s, SleepFor(time, now));
      && t < |r.task| == |s.task| && Q(r, SleepQ) == Q(s, SleepQ) + [t] && Q(r, ReadyQ) == Q(s, ReadyQ)
      && r.task[t] == s.task[t].(status := Sleeping, deadline := (now + time) % WORD, home := Some(SleepQ))
      && forall u :: 0 <= u < |s.task| && u != t ==> r.task[u] == s.task[u]
  {
    OnlyCurrentRuns(s);
  }

  // ----------------------------------------------------------------- the wake-ups of one scheduler call

  /** The k-th sleeper is due at this reading. */
  predicate DueAt(s: State, k: nat, now: nat) {
    k < |Q(s, SleepQ)| && Q(s, SleepQ)[k] < |s.task| && s.task[Q(s, SleepQ)[k]].deadline < now
  }

  /** The k-th sleeper is due and nobody before it is. */
  predicate FirstDueAt(s: State, k: nat, now: nat) {
    DueAt(s, k, now) && forall j: nat :: j < k ==> !DueAt(s, j, now)
  }

  ghost predicate NobodyDue(s: State, now: nat) {
    forall j: nat :: !DueAt(s, j, now)
  }

  /** From s to r the k-th sleeper became READY at the end of the ready queue, and nothing else changed. */
  ghost predicate WokeOnly(s: State, r: State, k: nat) {
    && k < |Q(s, SleepQ)| && Q(s, SleepQ)[k] < |s.task|
    && (var t := Q(s, SleepQ)[k];
        && r == s.(task := s.task[t := s.task[t].(status := Ready, home := Some(ReadyQ))], queue := r.queue)
        && Q(r, SleepQ) == Q(s, SleepQ)[..k] + Q(s, SleepQ)[k + 1..] && Q(r, ReadyQ) == Q(s, ReadyQ) + [t])
    && forall q :: q != SleepQ && q != ReadyQ ==> Q(r, q) == Q(s, q)
  }

  lemma DueIsFirst(s: State, k: nat, now: nat)
    requires Formed(s) && FirstDueAt(s, k, now)
    ensures FirstDue(s, Q(s, SleepQ), now) == k
  {
    assert Lists(s, SleepQ);
    var i := FirstDue(s, Q(s, SleepQ), now);
    assert i < |Q(s, SleepQ)| ==> DueAt(s, i, now);
  }

  lemma NoneIsDue(s: State, now: nat)
    requires Formed(s) && NobodyDue(s, now)
    ensures FirstDue(s, Q(s, SleepQ), now) == |Q(s, SleepQ)|
  {
    assert Lists(s, SleepQ);
    var i := FirstDue(s, Q(s, SleepQ), now);
    assert i < |Q(s, SleepQ)| ==> DueAt(s, i, now);
  }

  lemma CheckWakes(s: State, now: nat, k: nat)
    requires Formed(s) && FirstDueAt(s, k, now)
    ensures WokeOnly(s, CheckSleeping(s, now), k)
  {
    DueIsFirst(s, k, now);
    MoveTask(s, SleepQ, k);
  }

  lemma CheckStays(s: State, now: nat)
    requires Formed(s) && NobodyDue(s, now)
    ensures CheckSleeping(s, now) == s
  {
    NoneIsDue(s, now);
  }

  /** If somebody is due at the first reading, exactly the first one due is woken, whoever is ready. */
  lemma FirstReadingWakes(s: State, c: Clock, k: nat)
    requires Placement(s) && FirstDueAt(s, k, c.first)
    ensures WokeOnly(s, Wake(s, c), k)
  {
    CheckWakes(s, c.first, k);
  }

  /** Otherwise nobody is woken while somebody is ready, or nobody sleeps. */
  lemma NobodyWakes(s: State, c: Clock)
    requires Placement(s) && NobodyDue(s, c.first) && (Q(s, ReadyQ) != [] || Q(s, SleepQ) == [])
    ensures Wake(s, c) == s
  {
    CheckStays(s, c.first);
  }

  /** With nobody ready, the reading that ends the idle loop decides. */
  lemma LastReadingWakes(s: State, c: Clock, k: nat)
    requires Placement(s) && NobodyDue(s, c.first) && Q(s, ReadyQ) == [] && FirstDueAt(s, k, c.last)
    ensures WokeOnly(s, Wake(s, c), k)
  {
    CheckStays(s, c.first);
    CheckWakes(s, c.last, k);
  }

  /** A scheduler call wakes nobody, or one sleeper that is due at one of its readings. */
  lemma WakeCases(s: State, c: Clock) returns (k: nat)
    requires Placement(s)
    ensures Wake(s, c) == s || (WokeOnly(s, Wake(s, c), k) && (DueAt(s, k, c.first) || DueAt(s, k, c.last)))
    ensures (exists j: nat :: DueAt(s, j, c.first)) ==> WokeOnly(s, Wake(s, c), k) && FirstDueAt(s, k, c.first)
  {
    assert Lists(s, SleepQ);
    k := FirstDue(s, Q(s, SleepQ), c.first);
    if k < |Q(s, SleepQ)| {
      assert FirstDueAt(s, k, c.first);
      FirstReadingWakes(s, c, k);
    } else {
      assert NobodyDue(s, c.first);
      CheckStays(s, c.first);
      k := FirstDue(s, Q(s, SleepQ), c.last);
      if k < |Q(s, SleepQ)| {
        assert FirstDueAt(s, k, c.last);
        CheckWakes(s, c.last, k);
      } else {
        assert NobodyDue(s, c.last);
        CheckStays(s, c.last);
      }
    }
  }

  // ----------------------------------------------------------------- the sleeping queue over one step

  lemma SchedulerKeeps(s: State, c: Clock)
    requires Placement(s) && Q(Wake(Requeue(s), c), ReadyQ) != []
    ensures Q(Requeue(s), SleepQ) == Q(s, SleepQ) && Q(Schedule(s, c), SleepQ) == Q(Wake(Requeue(s), c), SleepQ)
  {
    ScheduleInOrder(s, c);
  }

  /** The sleeping queue after a call: do_sleep adds its caller at the end, do_kill takes out its target. */
  ghost predicate SleepersAfter(s: State, e: Event, now: seq<nat>) {
    var was := Q(s, SleepQ);
    match e
    case SleepFor(_, _) => now == was + [s.current]
    case Kill(_) =>
      var t := Mutex.Ends(s, e);
      if t.Some? && t.value in was then now == Without(was, IndexOf(was, t.value)) else now == was
    case _ => now == was
  }

  lemma DetachSleepers(s: State, t: nat)
    requires Placement(s) && t < NUM_MAX_TASK && (s.task[t].status == Blocked ==> OnRegisteredLock(s.task[t]))
    ensures Q(Detach(s, t), SleepQ)
         == if t in Q(s, SleepQ) then Without(Q(s, SleepQ), IndexOf(Q(s, SleepQ), t)) else Q(s, SleepQ)
  {
    assert Fits(s, t) && AtHome(s, t) && Lists(s, SleepQ);
    if s.task[t].status == Blocked {
      LeaveLocksEffect(s, t, 0);
    }
  }

  lemma FinishSleepers(x: State, t: nat)
    requires Formed(x) && t < NUM_MAX_TASK
    ensures Q(WakeAll(ReleaseSlots(x, t), WaitQ(t)), SleepQ) == Q(x, SleepQ)
  {
    ReleaseSlotsFrame(x, t, 0, SleepQ);
    WakeAllFrame(ReleaseSlots(x, t), WaitQ(t), SleepQ);
  }

  lemma KilledSleepers(s: State, n: nat, t: nat)
    requires Placement(s) && KillReaches(s, n) && Mutex.Ends(s, Kill(n)) == Some(t)
    ensures Q(KillTask(s, n), SleepQ)
         == if t in Q(s, SleepQ) then Without(Q(s, SleepQ), IndexOf(Q(s, SleepQ), t)) else Q(s, SleepQ)
  {
    DetachSleepers(s, t);
    FinishSleepers(SetStatus(Detach(s, t), t, Exited), t);
  }

  lemma KillSleepers(s: State, n: nat)
    requires Placement(s) && KillReaches(s, n)
    ensures SleepersAfter(s, Kill(n), Q(KillTask(s, n), SleepQ))
  {
    if Mutex.Ends(s, Kill(n)) == None {
      Mutex.KillNobody(s, n);
    } else {
      KilledSleepers(s, n, Mutex.Ends(s, Kill(n)).value);
    }
  }

  lemma ActSleepers(s: State, e: Event)
    requires Placement(s) && Allowed(s, e) && (e.Kill? ==> KillReaches(s, e.pid))
    ensures SleepersAfter(s, e, Q(Act(s, e), SleepQ))
  {
    match e
    case SleepFor(time, now) => SleepParks(s, time, now);
    case Kill(n) => KillSleepers(s, n);
    case _ => ActFrame(s, e, SleepQ);
  }

  // ----------------------------------------------------------------- deadlines do not move

  lemma WokenDeadline(s: State, r: State, x: nat)
    requires Woken(s, r) && x < |s.task|
    ensures x < |r.task| && r.task[x].deadline == s.task[x].deadline
  {
    assert SameIdentity(s.task[x], r.task[x]);
  }

  lemma WaitDeadline(s: State, l: nat, c: nat, x: nat)
    requires Placement(s) && s.current < NUM_MAX_TASK && s.task[s.current].status == Running && l < |s.lock|
    requires CondQ(c) in s.queue && x < |s.task|
    ensures WaitOnCondition(s, l, c).task[x].deadline == s.task[x].deadline
  {
    OnlyCurrentRuns(s);
    var p := Park(SetResume(s, Acquiring(l)), s.current, CondQ(c), Blocked);
    WokenDeadline(p, Release(p, l), x);
  }

  lemma ExitDeadline(s: State, x: nat)
    requires Placement(s) && s.current < NUM_MAX_TASK && s.task[s.current].status == Running && x < |s.task|
    ensures ExitTask(s).task[x].deadline == s.task[x].deadline
  {
    var m := ReleaseSlots(s, s.current);
    WokenDeadline(s, m, x);
    WokenDeadline(m, WakeAll(m, WaitQ(s.current)), x);
  }

  lemma KillDeadline(s: State, n: nat, x: nat)
    requires Placement(s) && x < |s.task| && Mutex.Ends(s, Kill(n)) != Some(x)
    ensures x < |KillTask(s, n).task| && KillTask(s, n).task[x].deadline == s.task[x].deadline
  {
    if FindPid(s.task, n) < NUM_MAX_TASK && s.task[FindPid(s.task, n)].status != Exited {
      KillSpares(s, n, x);
    }
  }

  lemma WakingDeadline(s: State, e: Event, x: nat)
    requires Placement(s) && Allowed(s, e) && x < |s.task| && OnlyWakes(e)
    ensures Act(s, e).task[x].deadline == s.task[x].deadline
  {
    match e
    case WakeOne(q) => WokenDeadline(s, UnblockOne(s, q), x);
    case WakeEvery(q) => WokenDeadline(s, UnblockAll(s, q), x);
    case Unlock(l) => WokenDeadline(s, Release(s, l), x);
    case Signal(c) => WokenDeadline(s, WakeFirst(s, CondQ(c)), x);
    case Broadcast(c) => WokenDeadline(s, WakeAll(s, CondQ(c)), x);
  }

  lemma SemDeadline(s: State, y: nat, x: nat)
    requires Placement(s) && s.current < NUM_MAX_TASK &&
      s.task[s.current].status == Running && y < |s.sem| && x < |s.task|
    ensures SemUp(s, y).task[x].deadline == s.task[x].deadline && SemDown(s, y).task[x].deadline == s.task[x].deadline
  {
    OnlyCurrentRuns(s);
    WokenDeadline(s, WakeFirst(s, SemQ(y)), x);
  }

  lemma BarrierDeadline(s: State, b: nat, x: nat)
    requires Placement(s) && s.current < NUM_MAX_TASK && s.task[s.current].status == Running && b < |s.barrier|
    requires x < |s.task|
    ensures BarrierWait(s, b).task[x].deadline == s.task[x].deadline
  {
    OnlyCurrentRuns(s);
    WokenDeadline(s, WakeAll(s, BarrierQ(b)), x);
  }

  lemma SyncDeadline(s: State, e: Event, x: nat)
    requires Placement(s) && Allowed(s, e) && x < |s.task| && (e.Up? || e.Down? || e.Arrive? || e.Init?)
    ensures Act(s, e).task[x].deadline == s.task[x].deadline
  {
    match e
    case Up(y) => SemDeadline(s, y, x);
    case Down(y) => SemDeadline(s, y, x);
    case Arrive(b) => BarrierDeadline(s, b, x);
    case Init(o) => ResetKeeps(s, o);
  }

  lemma OtherDeadline(s: State, e: Event, x: nat)
    requires Placement(s) && Allowed(s, e) && x < |s.task| && s.task[x].status == Sleeping
    requires !e.CondWait? && !e.Exit? && !e.Kill?
    ensures Act(s, e).task[x].deadline == s.task[x].deadline
  {
    if OnlyWakes(e) {
      WakingDeadline(s, e, x);
    } else if e.Up? || e.Down? || e.Arrive? || e.Init? {
      SyncDeadline(s, e, x);
    } else {
      OnlyCurrentRuns(s);
    }
  }

  /** No call moves the deadline of a sleeper. */
  lemma ActDeadline(s: State, e: Event, x: nat)
    requires Placement(s) && Allowed(s, e) && x in Q(s, SleepQ) && Mutex.Ends(s, e) != Some(x)
    ensures x < |s.task| && x < |Act(s, e).task| && Act(s, e).task[x].deadline == s.task[x].deadline
  {
    assert Lists(s, SleepQ) && Fits(s, x);
    match e
    case CondWait(l, c) => WaitDeadline(s, l, c, x);
    case Exit => ExitDeadline(s, x);
    case Kill(n) => KillDeadline(s, n, x);
    case _ => OtherDeadline(s, e, x);
  }

  lemma RequeueDeadline(s: State, x: nat)
    requires Placement(s) && x < |s.task|
    ensures x < |Requeue(s).task| && Requeue(s).task[x].deadline == s.task[x].deadline
  {
  }

  lemma DispatchDeadline(s: State, x: nat)
    requires Placement(s) && NobodyRuns(s) && Q(s, ReadyQ) != [] && x < |s.task|
    ensures x < |Dispatch(s).task| && Dispatch(s).task[x].deadline == s.task[x].deadline
  {
    DispatchInOrder(s);
  }

  lemma ScheduleDeadline(s: State, c: Clock, x: nat)
    requires Placement(s) && Q(Wake(Requeue(s), c), ReadyQ) != [] && x < |s.task|
    ensures x < |Schedule(s, c).task| && Schedule(s, c).task[x].deadline == s.task[x].deadline
  {
    var m := Requeue(s);
    RequeueDeadline(s, x);
    WokenDeadline(m, Wake(m, c), x);
    WokenNobodyRuns(m, Wake(m, c));
    DispatchDeadline(Wake(m, c), x);
  }

  lemma StepDeadline(s: State, e: Event, c: Clock, x: nat)
    requires Placement(s) && Enabled(s, e, c) && x in Q(s, SleepQ) && Mutex.Ends(s, e) != Some(x)
    ensures x < |s.task| && x < |Step(s, e, c).task| && Step(s, e, c).task[x].deadline == s.task[x].deadline
  {
    ActDeadline(s, e, x);
    ActKeeps(s, e);
    if Yields(s, e) {
      ScheduleDeadline(Act(s, e), c, x);
    }
  }

  // ----------------------------------------------------------------- the place in the queue

  /** The place of a sleeper, or 0 if it does not sleep. */
  function Place(s: State, x: nat): nat {
    if x in Q(s, SleepQ) then IndexOf(Q(s, SleepQ), x) else 0
  }

  lemma {:induction false} PlaceWithout(a: seq<nat>, x: nat, k: nat)
    requires k < |a| && a[k] != x && x in a
    ensures x in Without(a, k)
    ensures IndexOf(Without(a, k), x) == if k < IndexOf(a, x) then IndexOf(a, x) - 1 else IndexOf(a, x)
  {
    if k == 0 {
      assert Without(a, 0) == a[1..];
    } else {
      WithoutTail(a, k);
      if a[0] != x {
        PlaceWithout(a[1..], x, k - 1);
      }
    }
  }

  lemma {:induction false} PlacePrefix(a: seq<nat>, b: seq<nat>, x: nat)
    requires x in a
    ensures x in a + b && IndexOf(a + b, x) == IndexOf(a, x)
  {
    if a[0] != x {
      assert (a + b)[1..] == a[1..] + b;
      PlacePrefix(a[1..], b, x);
    }
  }

  /** A call brings a sleeper no farther from the head of the queue. */
  lemma ActCloser(s: State, e: Event, x: nat)
    requires Placement(s) && Allowed(s, e) && (e.Kill? ==> KillReaches(s, e.pid)) && x in Q(s, SleepQ)
    requires Mutex.Ends(s, e) != Some(x)
    ensures x in Q(Act(s, e), SleepQ) && IndexOf(Q(Act(s, e), SleepQ), x) <= IndexOf(Q(s, SleepQ), x)
  {
    ActSleepers(s, e);
    var was := Q(s, SleepQ);
    if e.SleepFor? {
      PlacePrefix(was, [s.current], x);
    } else if e.Kill? && Mutex.Ends(s, e).Some? && Mutex.Ends(s, e).value in was {
      PlaceWithout(was, x, IndexOf(was, Mutex.Ends(s, e).value));
    }
  }

  /** One sleeper is taken out, and the others move up. */
  lemma MovesUp(s: State, r: State, k: nat, x: nat)
    requires Placement(s) && WokeOnly(s, r, k) && x in Q(s, SleepQ) && x in Q(r, SleepQ)
    ensures k != Place(s, x) && Place(r, x) == if k < Place(s, x) then Place(s, x) - 1 else Place(s, x)
  {
    assert Q(r, SleepQ) == Without(Q(s, SleepQ), k);
    WokenIsGone(s, k);
    PlaceWithout(Q(s, SleepQ), x, k);
  }

  /** The wake-ups take the sleeper itself, or bring it closer if it is due at the first reading. */
  lemma WakeCloser(s: State, c: Clock, x: nat)
    requires Placement(s) && x in Q(s, SleepQ) && x < |s.task| && x in Q(Wake(s, c), SleepQ)
    ensures Place(Wake(s, c), x) + (if s.task[x].deadline < c.first then 1 else 0) <= Place(s, x)
  {
    var k := WakeCases(s, c);
    assert s.task[x].deadline < c.first ==> DueAt(s, Place(s, x), c.first);
    if Wake(s, c) != s {
      MovesUp(s, Wake(s, c), k, x);
    }
  }

  lemma WokenIsGone(s: State, k: nat)
    requires Placement(s) && k < |Q(s, SleepQ)|
    ensures Q(s, SleepQ)[k] !in Without(Q(s, SleepQ), k)
  {
    assert Lists(s, SleepQ);
    WithoutDistinct(Q(s, SleepQ), k);
  }

  lemma ScheduleCloser(s: State, c: Clock, x: nat)
    requires Placement(s) && Q(Wake(Requeue(s), c), ReadyQ) != [] && x in Q(s, SleepQ) && x < |s.task|
    requires x in Q(Schedule(s, c), SleepQ)
    ensures IndexOf(Q(Schedule(s, c), SleepQ), x) + (if s.task[x].deadline < c.first then 1 else 0)
         <= IndexOf(Q(s, SleepQ), x)
  {
    SchedulerKeeps(s, c);
    RequeueDeadline(s, x);
    WakeCloser(Requeue(s), c, x);
  }

  lemma SleeperNotEnded(s: State, e: Event, c: Clock, x: nat)
    requires Placement(s) && Enabled(s, e, c) && x in Q(s, SleepQ) && x in Q(Step(s, e, c), SleepQ)
    ensures x < |s.task| && Mutex.Ends(s, e) != Some(x)
  {
    assert Lists(s, SleepQ) && Fits(s, x);
    ActKeeps(s, e);
    if Mutex.Ends(s, e) == Some(x) {
      assert e.Kill?;
      KillKeeps(s, e.pid);
      EndedGone(s, e, c, x);
    }
  }

  /** A task that was killed is in no queue afterwards. */
  lemma EndedGone(s: State, e: Event, c: Clock, x: nat)
    requires Placement(s) && Enabled(s, e, c) && e.Kill? && Mutex.Ends(s, e) == Some(x) && x in Q(s, SleepQ)
    ensures x !in Q(Step(s, e, c), SleepQ)
  {
    ActKeeps(s, e);
    ActSleepers(s, e);
    WokenIsGone(s, IndexOf(Q(s, SleepQ), x));
    if Yields(s, e) {
      ScheduleAddsNone(Act(s, e), c, x);
    }
  }

  lemma WakeAddsNone(m: State, c: Clock, x: nat)
    requires Placement(m) && x !in Q(m, SleepQ)
    ensures x !in Q(Wake(m, c), SleepQ)
  {
    var k := WakeCases(m, c);
  }

  lemma ScheduleAddsNone(s: State, c: Clock, x: nat)
    requires Placement(s) && Q(Wake(Requeue(s), c), ReadyQ) != [] && x !in Q(s, SleepQ)
    ensures x !in Q(Schedule(s, c), SleepQ)
  {
    SchedulerKeeps(s, c);
    WakeAddsNone(Requeue(s), c, x);
  }

  /** One step: a sleeper that stays has come a place closer if it was due at a scheduler call's first reading. */
  lemma StepCloser(s: State, e: Event, c: Clock, x: nat)
    requires Placement(s) && Enabled(s, e, c) && x in Q(s, SleepQ) && x in Q(Step(s, e, c), SleepQ)
    ensures x < |s.task| && x < |Step(s, e, c).task| && Step(s, e, c).task[x].deadline == s.task[x].deadline
    ensures IndexOf(Q(Step(s, e, c), SleepQ), x) + (if Yields(s, e) && s.task[x].deadline < c.first then 1 else 0)
         <= IndexOf(Q(s, SleepQ), x)
  {
    SleeperNotEnded(s, e, c, x);
    StepDeadline(s, e, c, x);
    ActCloser(s, e, x);
    ActDeadline(s, e, x);
    ActKeeps(s, e);
    if Yields(s, e) {
      ScheduleCloser(Act(s, e), c, x);
    }
  }

  // ----------------------------------------------------------------- leaving the queue

  /** The task left the sleeping queue because it was killed, or because a reading was past its deadline. */
  ghost predicate LeftInTime(s: State, e: Event, c: Clock, r: State, x: nat) {
    || Mutex.Ends(s, e) == Some(x)
    || (x < |s.task| && Calling(s, e) && (s.task[x].deadline < c.first || s.task[x].deadline < c.last)
        && (r.current == x || x in Q(r, ReadyQ)))
  }

  lemma DispatchPlaces(w: State, x: nat)
    requires Placement(w) && NobodyRuns(w) && x in Q(w, ReadyQ)
    ensures Dispatch(w).current == x || x in Q(Dispatch(w), ReadyQ)
  {
    DispatchInOrder(w);
    var k := Pick(w, Q(w, ReadyQ));
    if Q(w, ReadyQ)[k] != x {
      PlaceWithout(Q(w, ReadyQ), x, k);
    }
  }

  lemma WokenInTime(m: State, c: Clock, x: nat)
    requires Placement(m) && x in Q(m, SleepQ) && x !in Q(Wake(m, c), SleepQ)
    ensures x < |m.task| && (m.task[x].deadline < c.first || m.task[x].deadline < c.last) && x in Q(Wake(m, c), ReadyQ)
  {
    var k := WakeCases(m, c);
  }

  lemma ScheduleInTime(s: State, c: Clock, x: nat)
    requires Placement(s) && Q(Wake(Requeue(s), c), ReadyQ) != [] && x in Q(s, SleepQ) && x < |s.task|
    requires x !in Q(Schedule(s, c), SleepQ)
    ensures s.task[x].deadline < c.first || s.task[x].deadline < c.last
    ensures Schedule(s, c).current == x || x in Q(Schedule(s, c), ReadyQ)
  {
    var m := Requeue(s);
    SchedulerKeeps(s, c);
    RequeueDeadline(s, x);
    WokenInTime(m, c, x);
    WokenNobodyRuns(m, Wake(m, c));
    DispatchPlaces(Wake(m, c), x);
  }

  lemma OnlySchedulerWakes(s: State, e: Event, c: Clock, x: nat)
    requires Placement(s) && Enabled(s, e, c) && x in Q(Act(s, e), SleepQ) && x !in Q(Step(s, e, c), SleepQ)
    ensures Yields(s, e) && Placement(Act(s, e)) && Step(s, e, c) == Schedule(Act(s, e), c)
  {
    ActKeeps(s, e);
  }

  /** Nobody is woken before its deadline, and whoever is woken is ready or runs. */
  lemma LeavesInTime(s: State, e: Event, c: Clock, x: nat)
    requires Placement(s) && Enabled(s, e, c) && x in Q(s, SleepQ) && x !in Q(Step(s, e, c), SleepQ)
    ensures LeftInTime(s, e, c, Step(s, e, c), x)
  {
    if Mutex.Ends(s, e) != Some(x) {
      ActCloser(s, e, x);
      ActDeadline(s, e, x);
      OnlySchedulerWakes(s, e, c, x);
      ScheduleInTime(Act(s, e), c, x);
    }
  }

  // ----------------------------------------------------------------- runs

  /** The scheduler calls among the first n events whose first reading is past d. */
  ghost function DueCalls(states: seq<State>, events: seq<(Event, Clock)>, d: nat, n: nat): nat
    requires n <= |events| < |states|
  {
    if n == 0 then 0
    else
      DueCalls(states, events, d, n - 1)
      + if Calling(states[n - 1], events[n - 1].0) && d < events[n - 1].1.first then 1 else 0
  }

  /** The sleeper is still there, n events later: it has come closer by every call at which it was due. */
  ghost predicate Advanced(states: seq<State>, events: seq<(Event, Clock)>, x: nat, d: nat, n: nat) {
    && n <= |events| < |states| && x in Q(states[n], SleepQ) && x < |states[n].task| && states[n].task[x].deadline == d
    && DueCalls(states, events, d, n) + Place(states[n], x) <= Place(states[0], x)
  }

  lemma AdvancedNext(states: seq<State>, events: seq<(Event, Clock)>, x: nat, d: nat, n: nat)
    requires Run(states, events) && n < |events| && Advanced(states, events, x, d, n) && x in Q(states[n + 1], SleepQ)
    ensures Advanced(states, events, x, d, n + 1)
  {
    NextInRun(states, events, n);
    StepCloser(states[n], events[n].0, events[n].1, x);
  }

  lemma LeavesInRun(states: seq<State>, events: seq<(Event, Clock)>, x: nat, n: nat)
    requires Run(states, events) && n < |events| && x in Q(states[n], SleepQ) && x !in Q(states[n + 1], SleepQ)
    ensures LeftInTime(states[n], events[n].0, events[n].1, states[n + 1], x)
  {
    NextInRun(states, events, n);
    LeavesInTime(states[n], events[n].0, events[n].1, x);
  }

  /**
   Nobody oversleeps: a task with k sleepers before it leaves the sleeping queue within k + 1
   scheduler calls whose first reading is past its deadline, killed or on time.
   */
  lemma SleeperWakes(states: seq<State>, events: seq<(Event, Clock)>, x: nat) returns (n: nat)
    requires Run(states, events) && x in Q(states[0], SleepQ) && x < |states[0].task|
    requires DueCalls(states, events, states[0].task[x].deadline, |events|) > Place(states[0], x)
    ensures n < |events| && x in Q(states[n], SleepQ) && x !in Q(states[n + 1], SleepQ)
    ensures DueCalls(states, events, states[0].task[x].deadline, n + 1) <= Place(states[0], x) + 1
    ensures LeftInTime(states[n], events[n].0, events[n].1, states[n + 1], x)
  {
    var d := states[0].task[x].deadline;
    n := 0;
    while n < |events| && x in Q(states[n + 1], SleepQ)
      invariant n <= |events| && Advanced(states, events, x, d, n)
    {
      AdvancedNext(states, events, x, d, n);
      n := n + 1;
    }
    LeavesInRun(states, events, x, n);
  }

  /** And then, without do_spawn, it runs within its bound, or is killed. */
  lemma SleeperRuns(states: seq<State>, events: seq<(Event, Clock)>, x: nat) returns (n: nat)
    requires Run(states, events) && x in Q(states[0], SleepQ) && x < |states[0].task|
    requires DueCalls(states, events, states[0].task[x].deadline, |events|) > Place(states[0], x)
    requires forall i :: 0 <= i < |events| ==> !events[i].0.Spawn?
    ensures 0 < n < |states|
    ensures || Mutex.Ends(states[n - 1], events[n - 1].0) == Some(x) || states[n].current == x
            || (x in Q(states[n], ReadyQ)
                && (Calls(states[n..], events[n..], |events| - n) >= Potential(states[n], x) ==>
                      exists i :: n < i < |states| && x < |states[i].task|
                        && (states[i].current == x || states[i].task[x].status == Exited)))
  {
    n := SleeperWakes(states, events, x);
    n := n + 1;
    if x in Q(states[n], ReadyQ) && Calls(states[n..], events[n..], |events| - n) >= Potential(states[n], x) {
      Mutex.RunSuffix(states, events, n);
      EveryReadyTaskRuns(states[n..], events[n..], x);
      var i :| 0 < i < |states[n..]| && x < |states[n..][i].task|
        && (states[n..][i].current == x || states[n..][i].task[x].status == Exited);
      assert states[n..][i] == states[n + i];
    }
  }
}
