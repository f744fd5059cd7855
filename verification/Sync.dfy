/**
 What the blocking primitives promise over whole runs of the kernel: semaphores conserve
 tokens and grant in order, barriers release full generations in arrival order, a mutex has
 one holder at most, and a condition waiter can neither be missed nor return without the lock.
 */
module Sync {
  import opened Basics
  import opened KernelModel
  import opened KernelSteps

  // ----------------------------------------------------------------- what a step leaves alone

  lemma {:induction false} UnblockAllFrame(s: State, q: QueueId, p: QueueId)
    requires Formed(s) && q != ReadyQ && p != q && p != ReadyQ
    ensures Q(UnblockAll(s, q), p) == Q(s, p)
    decreases |Q(s, q)|
  {
    if Q(s, q) == [] {
    } else {
      UnblockStep(s, q);
      UnblockAllFrame(UnblockOne(s, q), q, p);
    }
  }

  lemma {:induction false} WakeAllFrame(s: State, q: QueueId, p: QueueId)
    requires Formed(s) && q != ReadyQ && p != q && p != ReadyQ
    ensures Q(WakeAll(s, q), p) == Q(s, p)
    decreases |Q(s, q)|
  {
    if Q(s, q) == [] {
    } else {
      WakeStep(s, q);
      WakeAllFrame(WakeFirst(s, q), q, p);
    }
  }

  lemma Regroup(a: seq<nat>, h: nat, d: seq<nat>)
    ensures (a + [h]) + d == a + ([h] + d)
  {
  }

  lemma WakeFirstOrder(s: State, q: QueueId)
    requires Formed(s) && q != ReadyQ && Q(s, q) != []
    ensures var m := WakeFirst(s, q);
      Q(m, ReadyQ) == Q(s, ReadyQ) + [Q(s, q)[0]] && Q(s, q) == [Q(s, q)[0]] + Q(m, q)
  {
  }

  /** clear_waiting_queue readies the whole queue in order. */
  lemma {:induction false} WakeAllOrder(s: State, q: QueueId)
    requires Formed(s) && q != ReadyQ
    ensures Q(WakeAll(s, q), ReadyQ) == Q(s, ReadyQ) + Q(s, q)
    decreases |Q(s, q)|
  {
    if Q(s, q) == [] {
    } else {
      var m := WakeFirst(s, q);
      WakeFirstOrder(s, q);
      WakeAllOrder(m, q);
      WakeStep(s, q);
      Regroup(Q(s, ReadyQ), Q(s, q)[0], Q(m, q));
    }
  }

  lemma ReleaseFrame(s: State, l: nat, p: QueueId)
    requires Formed(s) && l < |s.lock| && p != ReadyQ && p != LockQ(l)
    ensures Q(Release(s, l), p) == Q(s, p)
  {
    if s.lock[l] {
      var u := s.(lock := s.lock[l := false]);
      SameHomesFormed(s, u);
      UnblockAllFrame(WipeWaiters(u, l), LockQ(l), p);
    }
  }

  /** One turn of the loop over a task's lock table. */
  lemma ReleaseSlotFrame(s: State, t: nat, j: nat, p: QueueId) returns (m: State)
    requires Formed(s) && t <= BOOT && j < LOCK_MAX_NUM && p != ReadyQ && !p.LockQ?
    ensures Formed(m) && Q(m, p) == Q(s, p) && ReleaseSlots(s, t, j) == ReleaseSlots(m, t, j + 1)
  {
    m := s;
    assert SlotsOk(s.task[t].slots, |s.lock|);
    ReleaseSlotsStep(s, t, j);
    if s.task[t].slots[j].Some? {
      var l := s.task[t].slots[j].value;
      ReleaseFrame(s, l, p);
      m := Release(s, l);
    }
  }

  lemma {:induction false} ReleaseSlotsFrame(s: State, t: nat, j: nat, p: QueueId)
    requires Formed(s) && t <= BOOT && j <= LOCK_MAX_NUM && p != ReadyQ && !p.LockQ?
    ensures Q(ReleaseSlots(s, t, j), p) == Q(s, p)
    decreases LOCK_MAX_NUM - j
  {
    if j == LOCK_MAX_NUM {
    } else {
      var m := ReleaseSlotFrame(s, t, j, p);
      ReleaseSlotsFrame(m, t, j + 1, p);
    }
  }

  /** The words of the synchronisation objects, and what each task has still to do. */
  ghost predicate SameWords(s: State, r: State) {
    && r.sem == s.sem && r.barrier == s.barrier && r.lock == s.lock && |r.task| == |s.task|
    && forall t :: 0 <= t < |s.task| ==> r.task[t].resume == s.task[t].resume
  }

  lemma WakeFrame(s: State, c: Clock, p: QueueId)
    requires Placement(s) && IsWait(p)
    ensures Q(Wake(s, c), p) == Q(s, p) && SameWords(s, Wake(s, c))
  {
  }

  lemma RequeueFrame(s: State, p: QueueId)
    requires Placement(s) && IsWait(p)
    ensures Q(Requeue(s), p) == Q(s, p) && SameWords(s, Requeue(s))
  {
  }

  lemma DispatchFrame(s: State, p: QueueId)
    requires Placement(s) && NobodyRuns(s) && Q(s, ReadyQ) != [] && IsWait(p)
    ensures Q(Dispatch(s), p) == Q(s, p) && SameWords(s, Dispatch(s))
  {
  }

  /** The scheduler moves tasks only through the ready and the sleeping queue. */
  lemma ScheduleFrame(s: State, c: Clock, p: QueueId)
    requires Placement(s) && Q(Wake(Requeue(s), c), ReadyQ) != [] && IsWait(p)
    ensures Q(Schedule(s, c), p) == Q(s, p) && SameWords(s, Schedule(s, c))
  {
    RequeueFrame(s, p);
    WakeFrame(Requeue(s), c, p);
    WokenNobodyRuns(Requeue(s), Wake(Requeue(s), c));
    DispatchFrame(Wake(Requeue(s), c), p);
  }

  /** The queues a call may change besides the ready queue. */
  predicate Touches(s: State, e: Event, q: QueueId) {
    match e
    case Timer => false
    case SleepFor(_, _) => q == SleepQ
    case Spawn => false
    case BlockOn(p) => q == p
    case WakeOne(p) => q == p
    case WakeEvery(p) => q == p
    case Exit => q.LockQ? || q.WaitQ?
    case WaitPid(_) => q.WaitQ?
    case Kill(_) => q.LockQ? || q.WaitQ? || q == SleepQ
    case Lock(l) => q == LockQ(l)
    case Unlock(l) => q == LockQ(l)
    case Retry => q.LockQ? && s.current < |s.task| && s.task[s.current].resume == Acquiring(q.lock)
    case CondWait(l, c) => q == LockQ(l) || q == CondQ(c)
    case Signal(c) => q == CondQ(c)
    case Broadcast(c) => q == CondQ(c)
    case Up(x) => q == SemQ(x)
    case Down(x) => q == SemQ(x)
    case Arrive(b) => q == BarrierQ(b)
    case Init(_) => false
  }

  lemma KillFrame(s: State, n: nat, q: QueueId)
    requires Placement(s) && KillReaches(s, n) && IsWait(q) && !q.LockQ? && !q.WaitQ?
    ensures Q(KillTask(s, n), q) == Q(s, q)
  {
    var i := FindPid(s.task, n);
    if i < NUM_MAX_TASK && s.task[i].status != Exited {
      assert Fits(s, i) && AtHome(s, i);
      if s.task[i].status == Blocked {
        LeaveLocksEffect(s, i, 0);
      }
      var x := SetStatus(Detach(s, i), i, Exited);
      assert Q(x, q) == Q(s, q);
      ReleaseSlotsFrame(x, i, 0, q);
      WakeAllFrame(ReleaseSlots(x, i), WaitQ(i), q);
    }
  }

  lemma ExitFrame(s: State, q: QueueId)
    requires Placement(s) && s.current < NUM_MAX_TASK && s.task[s.current].status == Running
    requires q != ReadyQ && !q.LockQ? && !q.WaitQ?
    ensures Q(ExitTask(s), q) == Q(s, q)
  {
    ReleaseSlotsFrame(s, s.current, 0, q);
    WakeAllFrame(ReleaseSlots(s, s.current), WaitQ(s.current), q);
  }

  lemma AcquireFrame(s: State, l: nat, q: QueueId)
    requires Placement(s) && s.current < NUM_MAX_TASK && s.task[s.current].status == Running && l < |s.lock|
    requires q != LockQ(l)
    ensures Q(Acquire(s, l), q) == Q(s, q)
  {
  }

  lemma WaitFrame(s: State, l: nat, c: nat, q: QueueId)
    requires Placement(s) && s.current < NUM_MAX_TASK && s.task[s.current].status == Running && l < |s.lock|
    requires CondQ(c) in s.queue
    requires q != ReadyQ && q != LockQ(l) && q != CondQ(c)
    ensures Q(WaitOnCondition(s, l, c), q) == Q(s, q)
  {
    OnlyCurrentRuns(s);
    ReleaseFrame(Park(SetResume(s, Acquiring(l)), s.current, CondQ(c), Blocked), l, q);
  }

  lemma SemFrame(s: State, x: nat, q: QueueId)
    requires Placement(s) && s.current < NUM_MAX_TASK && s.task[s.current].status == Running && x < |s.sem|
    requires q != ReadyQ && q != SemQ(x)
    ensures Q(SemUp(s, x), q) == Q(s, q) && Q(SemDown(s, x), q) == Q(s, q)
  {
    OnlyCurrentRuns(s);
  }

  lemma BarrierFrame(s: State, b: nat, q: QueueId)
    requires Placement(s) && s.current < NUM_MAX_TASK && s.task[s.current].status == Running && b < |s.barrier|
    requires q != ReadyQ && q != BarrierQ(b)
    ensures Q(BarrierWait(s, b), q) == Q(s, q)
  {
    OnlyCurrentRuns(s);
    WakeAllFrame(s, BarrierQ(b), q);
  }

  /** A call changes no queue but the ready queue and those it touches. */
  lemma ActFrame(s: State, e: Event, q: QueueId)
    requires Placement(s) && Allowed(s, e) && (e.Kill? ==> KillReaches(s, e.pid)) && q != ReadyQ && !Touches(s, e, q)
    ensures Q(Act(s, e), q) == Q(s, q)
  {
    match e
    case WakeEvery(p) => UnblockAllFrame(s, p, q);
    case Exit => ExitFrame(s, q);
    case Kill(n) => KillFrame(s, n, q);
    case Lock(l) => AcquireFrame(s, l, q);
    case Retry => AcquireFrame(s, s.task[s.current].resume.lock, q);
    case Unlock(l) => ReleaseFrame(s, l, q);
    case CondWait(l, c) => WaitFrame(s, l, c, q);
    case Broadcast(c) => WakeAllFrame(s, CondQ(c), q);
    case Up(x) => SemFrame(s, x, q);
    case Down(x) => SemFrame(s, x, q);
    case Arrive(b) => BarrierFrame(s, b, q);
    case Init(o) => ResetKeeps(s, o);
    case _ =>
  }

  /** After a call, the scheduler changes no wait queue and no word. */
  lemma StepAfterAct(s: State, e: Event, c: Clock, q: QueueId)
    requires Placement(s) && Enabled(s, e, c) && IsWait(q)
    ensures Q(Step(s, e, c), q) == Q(Act(s, e), q) && SameWords(Act(s, e), Step(s, e, c))
  {
    ActKeeps(s, e);
    if Yields(s, e) {
      ScheduleFrame(Act(s, e), c, q);
    }
  }

  lemma KillWords(s: State, n: nat)
    requires Placement(s)
    ensures KillTask(s, n).sem == s.sem && KillTask(s, n).barrier == s.barrier
  {
    var i := FindPid(s.task, n);
    if i < NUM_MAX_TASK && s.task[i].status != Exited {
      DetachEffect(s, i);
      FinishWakes(SetStatus(Detach(s, i), i, Exited), i);
    }
  }

  lemma ExitWords(s: State)
    requires Placement(s) && s.current < NUM_MAX_TASK && s.task[s.current].status == Running
    ensures ExitTask(s).sem == s.sem && ExitTask(s).barrier == s.barrier
  {
  }

  lemma WaitWords(s: State, l: nat, c: nat)
    requires Placement(s) && s.current < NUM_MAX_TASK && s.task[s.current].status == Running && l < |s.lock|
    requires CondQ(c) in s.queue
    ensures WaitOnCondition(s, l, c).sem == s.sem && WaitOnCondition(s, l, c).barrier == s.barrier
  {
  }

  lemma AcquireWords(s: State, l: nat)
    requires Placement(s) && s.current < NUM_MAX_TASK && s.task[s.current].status == Running && l < |s.lock|
    ensures Acquire(s, l).sem == s.sem && Acquire(s, l).barrier == s.barrier
  {
  }

  /** The semaphore values after a call. */
  function Sems(s: State, e: Event): seq<int>
    requires Allowed(s, e)
  {
    match e
    case Up(x) => if Q(s, SemQ(x)) == [] then s.sem[x := s.sem[x] + 1] else s.sem
    case Down(x) => if s.sem[x] != 0 then s.sem[x := s.sem[x] - 1] else s.sem
    case Init(SemObject(x, value)) => s.sem[x := value]
    case _ => s.sem
  }

  /** One arrival at a barrier. */
  function Stamped(w: Barrier): Barrier {
    w.(missing := if w.missing == 1 then w.goal else w.missing - 1)
  }

  /** The barrier words after a call. */
  function Barriers(s: State, e: Event): seq<Barrier>
    requires Allowed(s, e)
  {
    match e
    case Arrive(b) => s.barrier[b := Stamped(s.barrier[b])]
    case Init(BarrierObject(b, goal)) => s.barrier[b := Barrier(goal, goal)]
    case _ => s.barrier
  }

  lemma SemWords(s: State, x: nat)
    requires Placement(s) && s.current < NUM_MAX_TASK && s.task[s.current].status == Running && x < |s.sem|
    ensures SemUp(s, x).sem == (if Q(s, SemQ(x)) == [] then s.sem[x := s.sem[x] + 1] else s.sem)
    ensures SemUp(s, x).barrier == s.barrier
    ensures SemDown(s, x).sem == (if s.sem[x] != 0 then s.sem[x := s.sem[x] - 1] else s.sem)
    ensures SemDown(s, x).barrier == s.barrier
  {
    OnlyCurrentRuns(s);
  }

  lemma BarrierWords(s: State, b: nat)
    requires Placement(s) && s.current < NUM_MAX_TASK && s.task[s.current].status == Running && b < |s.barrier|
    ensures BarrierWait(s, b).sem == s.sem && BarrierWait(s, b).barrier == s.barrier[b := Stamped(s.barrier[b])]
  {
    OnlyCurrentRuns(s);
  }

  /** The calls that move tasks and do nothing else. */
  predicate Plain(e: Event) {
    || e.Timer? || e.SleepFor? || e.BlockOn? || e.WakeOne? || e.WakeEvery? || e.Spawn? || e.WaitPid?
    || e.Unlock? || e.Signal? || e.Broadcast?
  }

  lemma PlainWords(s: State, e: Event)
    requires Placement(s) && Allowed(s, e) && Plain(e)
    ensures Act(s, e).sem == s.sem && Act(s, e).barrier == s.barrier
  {
    OnlyCurrentRuns(s);
  }

  /** Only the calls on semaphores write semaphore values, and only those on barriers write barriers. */
  lemma ActWords(s: State, e: Event)
    requires Placement(s) && Allowed(s, e)
    ensures Act(s, e).sem == Sems(s, e) && Act(s, e).barrier == Barriers(s, e)
  {
    match e
    case Kill(n) => KillWords(s, n);
    case Exit => ExitWords(s);
    case CondWait(l, c) => WaitWords(s, l, c);
    case Lock(l) => AcquireWords(s, l);
    case Retry => AcquireWords(s, s.task[s.current].resume.lock);
    case Up(x) => SemWords(s, x);
    case Down(x) => SemWords(s, x);
    case Arrive(b) => BarrierWords(s, b);
    case Init(o) => ResetKeeps(s, o);
    case _ => PlainWords(s, e);
  }

  // ----------------------------------------------------------------- first come, first served

  /** The queues of semaphores, conditions and barriers. */
  predicate Served(q: QueueId) {
    q.SemQ? || q.CondQ? || q.BarrierQ?
  }

  /** The event works on q only through the primitive q belongs to. */
  predicate Proper(e: Event, q: QueueId) {
    e != BlockOn(q) && e != WakeOne(q) && e != WakeEvery(q)
  }

  /** The tasks the event blocks on q. */
  function Joins(s: State, e: Event, q: QueueId): seq<nat> {
    match e
    case Down(x) => if q == SemQ(x) && x < |s.sem| && s.sem[x] == 0 then [s.current] else []
    case CondWait(_, c) => if q == CondQ(c) then [s.current] else []
    case Arrive(b) => if q == BarrierQ(b) && b < |s.barrier| && s.barrier[b].missing != 1 then [s.current] else []
    case _ => []
  }

  /** The tasks the event releases from q. */
  function Leaves(s: State, e: Event, q: QueueId): seq<nat> {
    match e
    case Up(x) => if q == SemQ(x) then Q(s, q)[..Min(1, |Q(s, q)|)] else []
    case Signal(c) => if q == CondQ(c) then Q(s, q)[..Min(1, |Q(s, q)|)] else []
    case Broadcast(c) => if q == CondQ(c) then Q(s, q) else []
    case Arrive(b) => if q == BarrierQ(b) && b < |s.barrier| && s.barrier[b].missing == 1 then Q(s, q) else []
    case _ => []
  }

  lemma FrontServes(s: State, q: QueueId)
    requires Formed(s) && q != ReadyQ
    ensures Q(s, q) == Q(s, q)[..Min(1, |Q(s, q)|)] + Q(WakeFirst(s, q), q)
  {
    if Q(s, q) != [] {
      WakeFirstOrder(s, q);
      assert Q(s, q)[..1] == [Q(s, q)[0]];
    }
  }

  /** From s to r the queue lost the tasks it leaves at its front and gained those that join at its end. */
  predicate Serves(s: State, e: Event, q: QueueId, r: State) {
    Q(s, q) + Joins(s, e, q) == Leaves(s, e, q) + Q(r, q)
  }

  /** How each event serves its queue, told from the queue alone. */
  lemma ServesBy(s: State, e: Event, q: QueueId, r: State)
    requires match e
      case Up(x) => q == SemQ(x) && Q(s, q) == Q(s, q)[..Min(1, |Q(s, q)|)] + Q(r, q)
      case Down(x) => q == SemQ(x) && x < |s.sem| && Q(r, q) == if s.sem[x] == 0 then Q(s, q) + [s.current] else Q(s, q)
      case Signal(c) => q == CondQ(c) && Q(s, q) == Q(s, q)[..Min(1, |Q(s, q)|)] + Q(r, q)
      case Broadcast(c) => q == CondQ(c) && Q(r, q) == []
      case CondWait(_, c) => q == CondQ(c) && Q(r, q) == Q(s, q) + [s.current]
      case Arrive(b) => q == BarrierQ(b) && b < |s.barrier| && Q(r, q) == if s.barrier[b].missing == 1 then []
        else Q(s, q) + [s.current]
      case _ => false
    ensures Serves(s, e, q, r)
  {
    EmptyEnds(Q(s, q));
    EmptyEnds(Q(r, q));
  }

  lemma UpServes(s: State, x: nat)
    requires Placement(s) && x < |s.sem|
    ensures Serves(s, Up(x), SemQ(x), SemUp(s, x))
  {
    FrontServes(s, SemQ(x));
    UpWakes(s, x);
    ServesBy(s, Up(x), SemQ(x), SemUp(s, x));
  }

  lemma UpWakes(s: State, x: nat)
    requires Placement(s) && x < |s.sem|
    ensures Q(SemUp(s, x), SemQ(x)) == Q(WakeFirst(s, SemQ(x)), SemQ(x))
  {
  }

  lemma DownServes(s: State, x: nat)
    requires Placement(s) && s.current < NUM_MAX_TASK && s.task[s.current].status == Running && x < |s.sem|
    ensures Serves(s, Down(x), SemQ(x), SemDown(s, x))
  {
    ServesBy(s, Down(x), SemQ(x), SemDown(s, x));
  }

  lemma SignalServes(s: State, c: nat)
    requires Placement(s)
    ensures Serves(s, Signal(c), CondQ(c), WakeFirst(s, CondQ(c)))
  {
    FrontServes(s, CondQ(c));
    ServesBy(s, Signal(c), CondQ(c), WakeFirst(s, CondQ(c)));
  }

  lemma BroadcastServes(s: State, c: nat)
    requires Placement(s)
    ensures Serves(s, Broadcast(c), CondQ(c), WakeAll(s, CondQ(c)))
  {
    ServesBy(s, Broadcast(c), CondQ(c), WakeAll(s, CondQ(c)));
  }

  lemma WaitServes(s: State, l: nat, c: nat)
    requires Placement(s) && s.current < NUM_MAX_TASK && s.task[s.current].status == Running && l < |s.lock|
    requires CondQ(c) in s.queue
    ensures Q(WaitOnCondition(s, l, c), CondQ(c)) == Q(s, CondQ(c)) + [s.current]
    ensures Serves(s, CondWait(l, c), CondQ(c), WaitOnCondition(s, l, c))
  {
    OnlyCurrentRuns(s);
    ReleaseFrame(Park(SetResume(s, Acquiring(l)), s.current, CondQ(c), Blocked), l, CondQ(c));
    ServesBy(s, CondWait(l, c), CondQ(c), WaitOnCondition(s, l, c));
  }

  lemma ArriveQueue(s: State, b: nat)
    requires Placement(s) && s.current < NUM_MAX_TASK && s.task[s.current].status == Running && b < |s.barrier|
    ensures var q, r := BarrierQ(b), BarrierWait(s, b);
      if s.barrier[b].missing == 1 then Q(r, q) == [] && Q(r, ReadyQ) == Q(s, ReadyQ) + Q(s, q)
      else Q(r, q) == Q(s, q) + [s.current]
  {
    OnlyCurrentRuns(s);
    WakeAllOrder(s, BarrierQ(b));
  }

  lemma ArriveServes(s: State, b: nat)
    requires Placement(s) && s.current < NUM_MAX_TASK && s.task[s.current].status == Running && b < |s.barrier|
    ensures Serves(s, Arrive(b), BarrierQ(b), BarrierWait(s, b))
  {
    ArriveQueue(s, b);
    ServesBy(s, Arrive(b), BarrierQ(b), BarrierWait(s, b));
  }

  lemma ServeTouched(s: State, e: Event, q: QueueId)
    requires Placement(s) && Allowed(s, e) && Served(q) && Proper(e, q) && Touches(s, e, q)
    ensures Serves(s, e, q, Act(s, e))
  {
    match e
    case Up(x) => UpServes(s, x);
    case Down(x) => DownServes(s, x);
    case Signal(c) => SignalServes(s, c);
    case Broadcast(c) => BroadcastServes(s, c);
    case CondWait(l, c) => WaitServes(s, l, c);
    case Arrive(b) => ArriveServes(s, b);
  }

  lemma EmptyEnds(a: seq<nat>)
    ensures a + [] == a && [] + a == a
  {
  }

  /** One call serves a queue from its front and lets tasks join only at its end. */
  lemma ServeStep(s: State, e: Event, q: QueueId)
    requires Placement(s) && Allowed(s, e) && (e.Kill? ==> KillReaches(s, e.pid)) && Served(q) && Proper(e, q)
    ensures Serves(s, e, q, Act(s, e))
  {
    if Touches(s, e, q) {
      ServeTouched(s, e, q);
    } else {
      ActFrame(s, e, q);
      EmptyEnds(Q(s, q));
      assert Joins(s, e, q) == Leaves(s, e, q) == [];
    }
  }

  ghost function Joined(states: seq<State>, events: seq<(Event, Clock)>, q: QueueId, n: nat): seq<nat>
    requires n <= |events| < |states|
  {
    if n == 0 then [] else Joined(states, events, q, n - 1) + Joins(states[n - 1], events[n - 1].0, q)
  }

  ghost function Left(states: seq<State>, events: seq<(Event, Clock)>, q: QueueId, n: nat): seq<nat>
    requires n <= |events| < |states|
  {
    if n == 0 then [] else Left(states, events, q, n - 1) + Leaves(states[n - 1], events[n - 1].0, q)
  }

  lemma Relink(a: seq<nat>, j: seq<nat>, j': seq<nat>, l: seq<nat>, l': seq<nat>, m: seq<nat>, z: seq<nat>)
    requires a + j == l + m && m + j' == l' + z
    ensures a + (j + j') == (l + l') + z
  {
    calc {
      a + (j + j');
      (a + j) + j';
      (l + m) + j';
      l + (m + j');
      l + (l' + z);
      (l + l') + z;
    }
  }

  /** Those who waited at first or joined since are those who left and those still waiting, in this order. */
  ghost predicate InOrder(states: seq<State>, events: seq<(Event, Clock)>, q: QueueId, n: nat)
    requires n <= |events| < |states|
  {
    Q(states[0], q) + Joined(states, events, q, n) == Left(states, events, q, n) + Q(states[n], q)
  }

  lemma InOrderNext(states: seq<State>, events: seq<(Event, Clock)>, q: QueueId, n: nat)
    requires n < |events| < |states| && InOrder(states, events, q, n) && n + 1 < |states|
    requires Serves(states[n], events[n].0, q, states[n + 1])
    ensures InOrder(states, events, q, n + 1)
  {
    Relink(Q(states[0], q), Joined(states, events, q, n), Joins(states[n], events[n].0, q),
      Left(states, events, q, n), Leaves(states[n], events[n].0, q), Q(states[n], q), Q(states[n + 1], q));
  }

  lemma InOrderFirst(states: seq<State>, events: seq<(Event, Clock)>, q: QueueId)
    requires |events| < |states|
    ensures InOrder(states, events, q, 0)
  {
    EmptyEnds(Q(states[0], q));
  }

  lemma ServeInRun(states: seq<State>, events: seq<(Event, Clock)>, q: QueueId, i: nat)
    requires Run(states, events) && i < |events| && Served(q) && Proper(events[i].0, q) && InOrder(states, events, q, i)
    ensures InOrder(states, events, q, i + 1)
  {
    NextInRun(states, events, i);
    ServeStep(states[i], events[i].0, q);
    StepAfterAct(states[i], events[i].0, events[i].1, q);
    InOrderNext(states, events, q, i);
  }

  /**
   First come, first served, over every run: the tasks that ever waited on the queue are,
   in order, those released so far followed by those still waiting.
   */
  lemma ServedInOrder(states: seq<State>, events: seq<(Event, Clock)>, q: QueueId, n: nat)
    requires Run(states, events) && n <= |events| && Served(q)
    requires forall i :: 0 <= i < n ==> Proper(events[i].0, q)
    ensures InOrder(states, events, q, n)
  {
    var k := 0;
    InOrderFirst(states, events, q);
    while k < n
      invariant k <= n && InOrder(states, events, q, k)
    {
      ServeInRun(states, events, q, k);
      k := k + 1;
    }
  }

  // ----------------------------------------------------------------- semaphores

  /** The value is never negative, and nobody waits while it is positive. */
  predicate SemSound(s: State, x: nat)
    requires x < |s.sem|
  {
    s.sem[x] >= 0 && (s.sem[x] > 0 ==> Q(s, SemQ(x)) == [])
  }

  /** What the event makes of value minus waiters: ups add a token, downs take one, whether or not somebody waits. */
  function Tokens(before: int, e: Event, x: nat): int {
    match e
    case Up(y) => if x == y then before + 1 else before
    case Down(y) => if x == y then before - 1 else before
    case Init(SemObject(y, value)) => if x == y then value else before
    case _ => before
  }

  /** The semaphore is not initialised with a negative value. */
  predicate Sane(e: Event, x: nat) {
    e.Init? && e.target.SemObject? && e.target.sem == x ==> e.target.value >= 0
  }

  lemma SemAct(s: State, e: Event, x: nat)
    requires Placement(s) && Allowed(s, e) && (e.Kill? ==> KillReaches(s, e.pid)) && x < |s.sem| && SemSound(s, x)
    requires Proper(e, SemQ(x)) && Sane(e, x)
    ensures var a := Act(s, e);
      && |a.sem| == |s.sem| && SemSound(a, x)
      && a.sem[x] - |Q(a, SemQ(x))| == Tokens(s.sem[x] - |Q(s, SemQ(x))|, e, x)
  {
    ActWords(s, e);
    ServeStep(s, e, SemQ(x));
    SemCount(s, e, x, Act(s, e));
  }

  lemma SemCount(s: State, e: Event, x: nat, a: State)
    requires Allowed(s, e) && x < |s.sem| && SemSound(s, x) && Sane(e, x) && a.sem == Sems(s, e)
    requires Serves(s, e, SemQ(x), a)
    ensures |a.sem| == |s.sem| && SemSound(a, x)
    ensures a.sem[x] - |Q(a, SemQ(x))| == Tokens(s.sem[x] - |Q(s, SemQ(x))|, e, x)
  {
    EmptyEnds(Q(s, SemQ(x)));
    EmptyEnds(Q(a, SemQ(x)));
  }

  lemma SemStep(s: State, e: Event, c: Clock, x: nat)
    requires Placement(s) && Enabled(s, e, c) && x < |s.sem| && SemSound(s, x) && Proper(e, SemQ(x)) && Sane(e, x)
    ensures var r := Step(s, e, c);
      && |r.sem| == |s.sem| && SemSound(r, x)
      && r.sem[x] - |Q(r, SemQ(x))| == Tokens(s.sem[x] - |Q(s, SemQ(x))|, e, x)
  {
    SemAct(s, e, x);
    StepAfterAct(s, e, c, SemQ(x));
  }

  lemma SemInRun(states: seq<State>, events: seq<(Event, Clock)>, x: nat, i: nat)
    requires Run(states, events) && i < |events| && x < |states[i].sem| && SemSound(states[i], x)
    requires Proper(events[i].0, SemQ(x)) && Sane(events[i].0, x)
    ensures var s, r, e := states[i], states[i + 1], events[i].0;
      && |r.sem| == |s.sem| && SemSound(r, x)
      && r.sem[x] - |Q(r, SemQ(x))| == Tokens(s.sem[x] - |Q(s, SemQ(x))|, e, x)
  {
    NextInRun(states, events, i);
    SemStep(states[i], events[i].0, events[i].1, x);
  }

  function Count(events: seq<(Event, Clock)>, e: Event): nat {
    if events == [] then 0 else Count(events[..|events| - 1], e) + (if events[|events| - 1].0 == e then 1 else 0)
  }

  /** Value minus waiters after all the events. */
  function AllTokens(first: int, events: seq<(Event, Clock)>, x: nat): int {
    if events == [] then first
    else Tokens(AllTokens(first, events[..|events| - 1], x), events[|events| - 1].0, x)
  }

  /** While the semaphore is not initialised again, that is the first amount plus the ups minus the downs begun. */
  lemma {:induction false} TokensCount(first: int, events: seq<(Event, Clock)>, x: nat)
    requires forall i :: 0 <= i < |events| && events[i].0.Init? ==> QueueOf(events[i].0.target) != SemQ(x)
    ensures AllTokens(first, events, x) == first + Count(events, Up(x)) - Count(events, Down(x))
  {
    if events == [] {
    } else {
      TokensCount(first, events[..|events| - 1], x);
    }
  }

  /**
   Semaphore conservation, over every run from a sound start: the value stays sound, and
   value minus waiters is what the ups, the downs and the initialisations make it.
   */
  lemma SemaphoreConserves(states: seq<State>, events: seq<(Event, Clock)>, x: nat, n: nat)
    requires Run(states, events) && n <= |events| && x < |states[0].sem| && SemSound(states[0], x)
    requires forall i :: 0 <= i < n ==> Proper(events[i].0, SemQ(x)) && Sane(events[i].0, x)
    ensures |states[n].sem| == |states[0].sem| && SemSound(states[n], x)
    ensures states[n].sem[x] - |Q(states[n], SemQ(x))|
         == AllTokens(states[0].sem[x] - |Q(states[0], SemQ(x))|, events[..n], x)
  {
    var k, first := 0, states[0].sem[x] - |Q(states[0], SemQ(x))|;
    while k < n
      invariant k <= n && |states[k].sem| == |states[0].sem| && SemSound(states[k], x)
      invariant states[k].sem[x] - |Q(states[k], SemQ(x))| == AllTokens(first, events[..k], x)
    {
      SemInRun(states, events, x, k);
      assert events[..k + 1][..k] == events[..k];
      k := k + 1;
    }
  }

  // ----------------------------------------------------------------- barriers

  /** Whoever has not arrived and whoever waits make up one generation. */
  predicate BarrierSound(s: State, b: nat)
    requires b < |s.barrier|
  {
    s.barrier[b].missing >= 1 && s.barrier[b].missing + |Q(s, BarrierQ(b))| == s.barrier[b].goal
  }

  /** The event initialises the barrier. */
  predicate Renews(e: Event, b: nat) {
    e.Init? && e.target.BarrierObject? && e.target.barrier == b
  }

  /** Who waits at the barrier after a call. */
  function Waiting(s: State, e: Event, b: nat): seq<nat>
    requires b < |s.barrier|
  {
    if e != Arrive(b) then Q(s, BarrierQ(b))
      else if s.barrier[b].missing == 1 then [] else Q(s, BarrierQ(b)) + [s.current]
  }

  lemma BarrierAct(s: State, e: Event, b: nat)
    requires Placement(s) && Allowed(s, e) && (e.Kill? ==> KillReaches(s, e.pid)) && b < |s.barrier|
    requires Proper(e, BarrierQ(b))
    ensures Q(Act(s, e), BarrierQ(b)) == Waiting(s, e, b)
  {
    if e == Arrive(b) {
      ArriveQueue(s, b);
    } else {
      ActFrame(s, e, BarrierQ(b));
    }
  }

  lemma BarrierCount(s: State, e: Event, b: nat, a: State)
    requires Allowed(s, e) && b < |s.barrier| && BarrierSound(s, b) && (Renews(e, b) ==> e.target.goal >= 1)
    requires a.barrier == Barriers(s, e) && Q(a, BarrierQ(b)) == Waiting(s, e, b)
    ensures |a.barrier| == |s.barrier| && BarrierSound(a, b)
    ensures if Renews(e, b) then Q(s, BarrierQ(b)) == [] else a.barrier[b].goal == s.barrier[b].goal
  {
  }

  lemma BarrierInRun(states: seq<State>, events: seq<(Event, Clock)>, b: nat, i: nat)
    requires Run(states, events) && i < |events| && b < |states[i].barrier| && BarrierSound(states[i], b)
    requires Proper(events[i].0, BarrierQ(b)) && (Renews(events[i].0, b) ==> events[i].0.target.goal >= 1)
    ensures |states[i + 1].barrier| == |states[i].barrier| && BarrierSound(states[i + 1], b)
    ensures if Renews(events[i].0, b) then Q(states[i], BarrierQ(b)) == []
      else states[i + 1].barrier[b].goal == states[i].barrier[b].goal
    ensures Q(states[i + 1], BarrierQ(b)) == Waiting(states[i], events[i].0, b)
  {
    NextInRun(states, events, i);
    ActWords(states[i], events[i].0);
    BarrierAct(states[i], events[i].0, b);
    StepAfterAct(states[i], events[i].0, events[i].1, BarrierQ(b));
    BarrierCount(states[i], events[i].0, b, states[i + 1]);
  }

  /** The tasks that called do_barrier_wait since the barrier was last initialised, in order. */
  ghost function Arrivals(states: seq<State>, events: seq<(Event, Clock)>, b: nat, n: nat): seq<nat>
    requires n <= |events| < |states|
  {
    if n == 0 || Renews(events[n - 1].0, b) then [] else
      Arrivals(states, events, b, n - 1) + if events[n - 1].0 == Arrive(b) then [states[n - 1].current] else []
  }

  /** The groups of tasks the barrier let go since then, in order; the last to arrive goes with its group. */
  ghost function Generations(states: seq<State>, events: seq<(Event, Clock)>, b: nat, n: nat): seq<seq<nat>>
    requires n <= |events| < |states|
  {
    if n == 0 || Renews(events[n - 1].0, b) then [] else
      var s := states[n - 1];
      Generations(states, events, b, n - 1)
      + if events[n - 1].0 == Arrive(b) && b < |s.barrier| &&
        s.barrier[b].missing == 1 then [Q(s, BarrierQ(b)) + [s.current]] else []
  }

  /** The k-th run of g arrivals. */
  function Group(arrivals: seq<nat>, g: nat, k: nat): seq<nat> {
    if k * g + g <= |arrivals| then arrivals[k * g..k * g + g] else []
  }

  /** The arrivals are the groups in order, each of g tasks, followed by those still waiting. */
  ghost predicate Grouped(arrivals: seq<nat>, groups: seq<seq<nat>>, g: nat, waiting: seq<nat>) {
    && |arrivals| == |groups| * g + |waiting| && arrivals[|arrivals| - |waiting|..] == waiting
    && forall k :: 0 <= k < |groups| ==> |groups[k]| == g && Group(arrivals, g, k) == groups[k]
  }

  lemma GroupStays(arrivals: seq<nat>, groups: seq<seq<nat>>, g: nat, waiting: seq<nat>, t: nat, k: nat)
    requires Grouped(arrivals, groups, g, waiting) && k < |groups|
    ensures Group(arrivals + [t], g, k) == groups[k]
  {
  }

  lemma GroupsGrow(arrivals: seq<nat>, groups: seq<seq<nat>>, g: nat, waiting: seq<nat>, t: nat)
    requires Grouped(arrivals, groups, g, waiting)
    ensures Grouped(arrivals + [t], groups, g, waiting + [t])
    ensures |waiting| + 1 == g ==> Grouped(arrivals + [t], groups + [waiting + [t]], g, [])
  {
    forall k | 0 <= k < |groups| ensures Group(arrivals + [t], g, k) == groups[k] {
      GroupStays(arrivals, groups, g, waiting, t, k);
    }
    assert (arrivals + [t])[|arrivals| - |waiting|..] == waiting + [t];
    if |waiting| + 1 == g {
      assert (|groups| + 1) * g == |groups| * g + g;
      assert Group(arrivals + [t], g, |groups|) == waiting + [t];
    }
  }

  /** The arrivals at the barrier are the generations let go and those still waiting. */
  ghost predicate InGenerations(states: seq<State>, events: seq<(Event, Clock)>, b: nat, n: nat)
    requires n <= |events| < |states| && b < |states[n].barrier|
  {
    states[n].barrier[b].goal >= 1 &&
    Grouped(Arrivals(states, events, b, n), Generations(states, events, b, n),
      states[n].barrier[b].goal, Q(states[n], BarrierQ(b)))
  }

  /**
   Barrier generations: over every run from an empty barrier with goal g >= 1, the k-th
   group let go since the barrier was last initialised is exactly the k-th g arrivals in
   arrival order, and the arrivals after the last full group are still waiting.
   */
  lemma BarrierGenerations(states: seq<State>, events: seq<(Event, Clock)>, b: nat, n: nat)
    requires Run(states, events) && n <= |events| && b < |states[0].barrier|
    requires var w := states[0].barrier[b]; w.goal == w.missing >= 1 && Q(states[0], BarrierQ(b)) == []
    requires forall i :: 0 <= i < n ==>
      Proper(events[i].0, BarrierQ(b)) && (Renews(events[i].0, b) ==> events[i].0.target.goal >= 1)
    ensures |states[n].barrier| == |states[0].barrier| && BarrierSound(states[n], b)
    ensures InGenerations(states, events, b, n)
  {
    var k := 0;
    assert Grouped([], [], states[0].barrier[b].goal, []);
    while k < n
      invariant k <= n && |states[k].barrier| == |states[0].barrier| && Settled(states, events, b, k)
    {
      SettledStep(states, events, b, k);
      k := k + 1;
    }
  }

  ghost predicate Settled(states: seq<State>, events: seq<(Event, Clock)>, b: nat, n: nat) {
    n <= |events| < |states| && b < |states[n].barrier| &&
      BarrierSound(states[n], b) && InGenerations(states, events, b, n)
  }

  lemma SettledStep(states: seq<State>, events: seq<(Event, Clock)>, b: nat, n: nat)
    requires Run(states, events) && n < |events| && Settled(states, events, b, n)
    requires Proper(events[n].0, BarrierQ(b)) && (Renews(events[n].0, b) ==> events[n].0.target.goal >= 1)
    ensures |states[n + 1].barrier| == |states[n].barrier| && Settled(states, events, b, n + 1)
  {
    BarrierInRun(states, events, b, n);
    GroupedStep(states, events, b, n);
  }

  lemma GroupedStep(states: seq<State>, events: seq<(Event, Clock)>, b: nat, n: nat)
    requires n < |events| < |states| && b < |states[n].barrier| == |states[n + 1].barrier|
    requires BarrierSound(states[n], b) && BarrierSound(states[n + 1], b) && InGenerations(states, events, b, n)
    requires if Renews(events[n].0, b) then Q(states[n], BarrierQ(b)) == []
      else states[n + 1].barrier[b].goal == states[n].barrier[b].goal
    requires Q(states[n + 1], BarrierQ(b)) == Waiting(states[n], events[n].0, b)
    ensures InGenerations(states, events, b, n + 1)
  {
    var s, arrivals, groups := states[n], Arrivals(states, events, b, n), Generations(states, events, b, n);
    var g, waiting := s.barrier[b].goal, Q(s, BarrierQ(b));
    if Renews(events[n].0, b) {
      assert Grouped([], [], states[n + 1].barrier[b].goal, []);
    } else if events[n].0 == Arrive(b) {
      GroupsGrow(arrivals, groups, g, waiting, s.current);
      assert Arrivals(states, events, b, n + 1) == arrivals + [s.current];
      if s.barrier[b].missing == 1 {
        assert Generations(states, events, b, n + 1) == groups + [waiting + [s.current]];
      } else {
        assert Generations(states, events, b, n + 1) == groups + [] == groups;
      }
    } else {
      assert Arrivals(states, events, b, n + 1) == arrivals && Generations(states, events, b, n + 1) == groups;
    }
  }
}
