/**
 The system calls and the scheduler as steps of the kernel state machine, and the
 placement invariant: which queue every task is in, at every point of every run.
 */
module KernelSteps {
  import opened Basics
  import opened KernelModel

  /**
   Queues are well formed and disjoint; a READY or CREATED task is in the ready queue, a
   SLEEPING one in the sleeping queue, a BLOCKED one in exactly one wait queue, and a
   RUNNING or EXITED one in none; only the current task is RUNNING.
   */
  ghost predicate Placement(s: State) {
    Formed(s) && Fitting(s) && NoOrphans(s) && PidsDistinct(s)
  }

  ghost predicate Queued(s: State, t: nat, q: QueueId) {
    t in Q(s, q)
  }

  /** The placement in plain words: a task's status says which queue it is in, and it is in no other. */
  lemma PlacesAreExact(s: State, t: nat)
    requires Placement(s) && t < NUM_MAX_TASK
    ensures s.task[t].status in {Ready, Created} <==> Queued(s, t, ReadyQ)
    ensures s.task[t].status == Sleeping <==> Queued(s, t, SleepQ)
    ensures s.task[t].status == Blocked <==> exists q :: IsWait(q) && Queued(s, t, q)
    ensures forall p, q :: Queued(s, t, p) && Queued(s, t, q) ==> p == q
    ensures s.task[t].status in {Running, Exited} ==> forall q :: !Queued(s, t, q)
    ensures s.task[t].status == Running ==> t == s.current
  {
    assert Fits(s, t) && AtHome(s, t);
    forall q | Queued(s, t, q) ensures s.task[t].home == Some(q) {
      assert Lists(s, q);
    }
    if s.task[t].status == Blocked {
      assert Queued(s, t, s.task[t].home.value);
    }
  }

  lemma WokenKeeps(s: State, r: State)
    requires Placement(s) && Woken(s, r)
    ensures Placement(r)
  {
    forall t | 0 <= t < NUM_MAX_TASK && r.task[t].status == Exited ensures Q(r, WaitQ(t)) == [] {
      assert SameIdentity(s.task[t], r.task[t]);
      assert Fits(s, t) && Fits(r, t);
      assert s.task[t].status == Exited;
    }
    forall t | 0 <= t < NUM_MAX_TASK
      ensures r.task[t].pid == s.task[t].pid && (r.task[t].status != Exited ==> s.task[t].status != Exited)
    {
      assert SameIdentity(s.task[t], r.task[t]);
      assert Fits(s, t) && Fits(r, t);
    }
  }

  /** Words the placement does not depend on may change freely. */
  lemma SamePlacesKeep(s: State, r: State)
    requires Placement(s) && Shape(r)
    requires r.queue == s.queue && r.current == s.current && r.pid == s.pid
    requires forall t :: 0 <= t <= BOOT ==>
      r.task[t].status == s.task[t].status && r.task[t].home == s.task[t].home && r.task[t].pid == s.task[t].pid
    ensures Placement(r)
  {
    SameHomesFormed(s, r);
    forall t | 0 <= t <= BOOT ensures Fits(r, t) { assert Fits(s, t); }
    assert forall q :: Q(r, q) == Q(s, q);
  }

  predicate StatusFor(q: QueueId, status: Status) {
    match q
    case ReadyQ => status in {Ready, Created}
    case SleepQ => status == Sleeping
    case _ => status == Blocked
  }

  /** Mark a task that is in no queue and push it on q. */
  function Park(s: State, t: nat, q: QueueId, status: Status): (r: State)
    requires Placement(s) && t < NUM_MAX_TASK && s.task[t].home == None && s.task[t].status != Exited
    requires q in s.queue && StatusFor(q, status)
    requires q.WaitQ? && q.task < NUM_MAX_TASK ==> s.task[q.task].status != Exited
    ensures Placement(r)
    ensures r == s.(task := r.task, queue := r.queue) && |r.task| == |s.task|
    ensures r.task[t] == s.task[t].(status := status, home := Some(q))
    ensures forall u :: 0 <= u <= BOOT && u != t ==> r.task[u] == s.task[u]
    ensures Q(r, q) == Q(s, q) + [t] && forall p :: p != q ==> Q(r, p) == Q(s, p)
  {
    ParkKeeps(s, t, q, status);
    Push(SetStatus(s, t, status), q, t)
  }

  lemma ParkKeeps(s: State, t: nat, q: QueueId, status: Status)
    requires Placement(s) && t < NUM_MAX_TASK && s.task[t].home == None && s.task[t].status != Exited
    requires q in s.queue && StatusFor(q, status)
    requires q.WaitQ? && q.task < NUM_MAX_TASK ==> s.task[q.task].status != Exited
    ensures Placement(Push(SetStatus(s, t, status), q, t))
  {
    var r := Push(SetStatus(s, t, status), q, t);
    assert r.task == s.task[t := s.task[t].(status := status, home := Some(q))];
    forall u | 0 <= u <= BOOT ensures Fits(r, u) { assert Fits(s, u); }
    forall u | 0 <= u < NUM_MAX_TASK
      ensures (r.task[u].status == Exited) == (s.task[u].status == Exited) && r.task[u].pid == s.task[u].pid
    {
    }
    forall u | 0 <= u < NUM_MAX_TASK && r.task[u].status == Exited ensures Q(r, WaitQ(u)) == [] {
      assert Q(r, WaitQ(u)) == Q(s, WaitQ(u));
    }
  }

  // ----------------------------------------------------------------- the scheduler

  ghost predicate NobodyRuns(s: State)
    requires Shape(s)
  {
    forall t :: 0 <= t < NUM_MAX_TASK ==> s.task[t].status != Running
  }

  lemma OnlyCurrentRuns(s: State)
    requires Placement(s)
    ensures forall t :: 0 <= t < NUM_MAX_TASK && s.task[t].status == Running ==>
      t == s.current && s.task[t].home == None
  {
    forall t | 0 <= t < NUM_MAX_TASK && s.task[t].status == Running ensures t == s.current && s.task[t].home == None {
      assert Fits(s, t);
    }
  }

  /** A RUNNING current task goes back to the ready queue; the boot PCB is only marked READY. */
  function Requeue(s: State): (r: State)
    requires Placement(s)
    ensures Placement(r) && NobodyRuns(r)
  {
    var t := s.current;
    OnlyCurrentRuns(s);
    if s.task[t].status != Running then s
    else if t == BOOT then
      var r := SetStatus(s, t, Ready);
      assert Fitting(r) by {
        forall u | 0 <= u <= BOOT ensures Fits(r, u) { assert Fits(s, u); }
      }
      r
    else Park(s, t, ReadyQ, Ready)
  }

  /** The wake-ups of one scheduler call: one check, and an idle loop if nothing is ready. */
  function Wake(s: State, c: Clock): (r: State)
    requires Placement(s)
    ensures Placement(r) && Woken(s, r)
  {
    var m := CheckSleeping(s, c.first);
    WokenKeeps(s, m);
    if Q(m, ReadyQ) != [] || Q(m, SleepQ) == [] then m
    else
      var r := CheckSleeping(m, c.last);
      WokenKeeps(m, r);
      WokenTransitive(s, m, r);
      r
  }

  /** A check either wakes somebody or changes nothing. */
  lemma CheckWakesOrStays(s: State, now: nat)
    requires Formed(s)
    ensures Formed(CheckSleeping(s, now))
    ensures CheckSleeping(s, now) == s || Q(CheckSleeping(s, now), ReadyQ) != []
  {
  }

  /** What the wake-ups amount to once the first check is done. */
  lemma WakeAfterFirst(s: State, c: Clock)
    requires Placement(s)
    ensures var m := CheckSleeping(s, c.first);
      Wake(s, c) == if Q(m, ReadyQ) != [] || Q(m, SleepQ) == [] then m else CheckSleeping(m, c.last)
  {
  }

  /** Choose the next task; the outgoing one loses a point of priority. */
  function Dispatch(s: State): (r: State)
    requires Placement(s) && NobodyRuns(s) && Q(s, ReadyQ) != []
    ensures Placement(r)
    ensures r.current < NUM_MAX_TASK && r.task[r.current].status == Running
  {
    var k := Pick(s, Q(s, ReadyQ));
    assert Lists(s, ReadyQ);
    var t := Q(s, ReadyQ)[k];
    var d := Decay(s);
    var r := SetStatus(Pull(d, ReadyQ, k), t, Running).(current := t);
    DispatchKeeps(s, k, d, r);
    r
  }

  function Lowered(s: State): State
    requires s.current < |s.task|
  {
    s.(task := s.task[s.current := s.task[s.current].(priority := s.task[s.current].priority - 1)])
  }

  function Decay(s: State): (r: State)
    requires Formed(s)
    ensures Formed(r)
    ensures forall q :: Q(r, q) == Q(s, q)
  {
    var r := Lowered(s);
    SameHomesFormed(s, r);
    r
  }

  lemma DispatchKeeps(s: State, k: nat, d: State, r: State)
    requires Placement(s) && NobodyRuns(s) && k < |Q(s, ReadyQ)| && Q(s, ReadyQ)[k] < NUM_MAX_TASK && d == Decay(s)
    requires r == SetStatus(Pull(d, ReadyQ, k), Q(s, ReadyQ)[k], Running).(current := Q(s, ReadyQ)[k])
    ensures Placement(r)
  {
    assert Lists(s, ReadyQ);
    var m := SetStatus(Pull(d, ReadyQ, k), Q(s, ReadyQ)[k], Running);
    SameHomesFormed(m, r);
    forall u | 0 <= u <= BOOT ensures Fits(r, u) { assert Fits(s, u); }
    forall u | 0 <= u < NUM_MAX_TASK
      ensures r.task[u].pid == s.task[u].pid && (r.task[u].status == Exited) == (s.task[u].status == Exited)
    {
      assert Fits(s, u);
    }
  }

  /** The same effect in the order the scheduler writes it: priority, current_running, links, status. */
  function Switched(s: State, k: nat): State
    requires s.current < |s.task| && k < |Q(s, ReadyQ)| && Q(s, ReadyQ)[k] < |s.task|
  {
    var t := Q(s, ReadyQ)[k];
    WithStatus(WithoutEntry(Lowered(s).(current := t), ReadyQ, k), t, Running)
  }

  lemma DispatchInOrder(s: State)
    requires Placement(s) && NobodyRuns(s) && Q(s, ReadyQ) != []
    ensures Q(s, ReadyQ)[Pick(s, Q(s, ReadyQ))] < NUM_MAX_TASK
    ensures Dispatch(s) == Switched(s, Pick(s, Q(s, ReadyQ)))
  {
    assert Lists(s, ReadyQ);
  }

  /** scheduler() */
  function Schedule(s: State, c: Clock): (r: State)
    requires Placement(s) && Q(Wake(Requeue(s), c), ReadyQ) != []
    ensures Placement(r)
    ensures r.current < NUM_MAX_TASK && r.task[r.current].status == Running
  {
    var m := Requeue(s);
    var w := Wake(m, c);
    WokenNobodyRuns(m, w);
    Dispatch(w)
  }

  lemma ScheduleInOrder(s: State, c: Clock)
    requires Placement(s) && Q(Wake(Requeue(s), c), ReadyQ) != []
    ensures var w := Wake(Requeue(s), c); var k := Pick(w, Q(w, ReadyQ));
      w.current < |w.task| && Q(w, ReadyQ)[k] < |w.task| && Schedule(s, c) == Switched(w, k)
  {
    var m := Requeue(s);
    var w := Wake(m, c);
    WokenNobodyRuns(m, w);
    DispatchInOrder(w);
  }

  lemma WokenNobodyRuns(m: State, w: State)
    requires Placement(m) && NobodyRuns(m) && Woken(m, w)
    ensures NobodyRuns(w)
  {
    forall t | 0 <= t < NUM_MAX_TASK ensures w.task[t].status != Running {
      assert SameIdentity(m.task[t], w.task[t]) && Fits(m, t) && Fits(w, t);
    }
  }

  // ----------------------------------------------------------------- system calls

  /** What the four init calls set up, with the value the caller gives. */
  datatype Object =
    | LockObject(lock: nat)
    | SemObject(sem: nat, value: int)
    | CondObject(cond: nat)
    | BarrierObject(barrier: nat, goal: int)

  function QueueOf(o: Object): QueueId {
    match o
    case LockObject(l) => LockQ(l)
    case SemObject(x, _) => SemQ(x)
    case CondObject(c) => CondQ(c)
    case BarrierObject(b, _) => BarrierQ(b)
  }

  predicate Exists(s: State, o: Object) {
    && QueueOf(o) in s.queue
    && match o
       case LockObject(l) => l < |s.lock|
       case SemObject(x, _) => x < |s.sem|
       case CondObject(_) => true
       case BarrierObject(b, _) => b < |s.barrier|
  }

  datatype Event =
    | Timer
    | SleepFor(time: nat, now: nat)
    | BlockOn(queue: QueueId)
    | WakeOne(queue: QueueId)
    | WakeEvery(queue: QueueId)
    | Spawn
    | Exit
    | WaitPid(pid: nat)
    | Kill(pid: nat)
    | Lock(lock: nat)
    | Unlock(lock: nat)
    | Retry
    | CondWait(lock: nat, cond: nat)
    | Signal(cond: nat)
    | Broadcast(cond: nat)
    | Up(sem: nat)
    | Down(sem: nat)
    | Arrive(barrier: nat)
    | Init(target: Object)

  /**
   The arguments name existing objects, the caller is running where it may make this call, and
   an object that is initialised again has nobody waiting (see InitExact).
   */
  predicate Allowed(s: State, e: Event) {
    && s.current < |s.task|
    && (s.current == BOOT ==> e == Timer)

    && (s.current != BOOT ==>
          s.task[s.current].status == Running && (e.Retry? <==> s.task[s.current].resume.Acquiring?))
    && match e
       case BlockOn(q) => q in s.queue && IsWait(q) &&
         (q.WaitQ? ==> q.task < |s.task| && s.task[q.task].status != Exited)
       case WakeOne(q) => q in s.queue && IsWait(q)
       case WakeEvery(q) => q in s.queue && IsWait(q)
       case Lock(l) => l < |s.lock|
       case Unlock(l) => l < |s.lock|
       case Retry => s.task[s.current].resume.Acquiring? && s.task[s.current].resume.lock < |s.lock|
       case CondWait(l, c) => l < |s.lock| && CondQ(c) in s.queue
       case Signal(c) => CondQ(c) in s.queue
       case Broadcast(c) => CondQ(c) in s.queue
       case Up(x) => x < |s.sem|
       case Down(x) => x < |s.sem|
       case Arrive(b) => b < |s.barrier|
       case Init(o) => Exists(s, o) && s.queue[QueueOf(o)] == []
       case _ => true
  }

  /** The first table entry whose status is EXITED, or the table's size. */
  function FreeEntry(task: seq<Task>, from: nat := 0): (i: nat)
    requires |task| == NUM_MAX_TASK + 1 && from <= NUM_MAX_TASK
    ensures from <= i <= NUM_MAX_TASK
    ensures forall j :: from <= j < i ==> task[j].status != Exited
    ensures i < NUM_MAX_TASK ==> task[i].status == Exited
    decreases NUM_MAX_TASK - from
  {
    if from == NUM_MAX_TASK || task[from].status == Exited then from else FreeEntry(task, from + 1)
  }

  /** The first table entry with this process id, or the table's size. */
  function FindPid(task: seq<Task>, n: nat, from: nat := 0): (i: nat)
    requires |task| == NUM_MAX_TASK + 1 && from <= NUM_MAX_TASK
    ensures from <= i <= NUM_MAX_TASK
    ensures forall j :: from <= j < i ==> task[j].pid != n
    ensures i < NUM_MAX_TASK ==> task[i].pid == n
    decreases NUM_MAX_TASK - from
  {
    if from == NUM_MAX_TASK || task[from].pid == n then from else FindPid(task, n, from + 1)
  }

  function Newborn(pid: nat): Task {
    Task(Created, INITIAL_PRIORITY, 0, pid, [None, None, None, None, None, None, None, None, None, None], ToUser, None)
  }

  /** do_spawn: a process id is used up even when the table is full. */
  function SpawnTask(s: State): (r: State)
    requires Placement(s)
    ensures Placement(r)
  {
    var i := FreeEntry(s.task);
    if i == NUM_MAX_TASK then
      PidKeeps(s);
      s.(pid := s.pid + 1)
    else
      SpawnKeeps(s, i);
      Push(WithTask(s.(pid := s.pid + 1), i, Newborn(s.pid + 1)), ReadyQ, i)
  }

  lemma PidKeeps(s: State)
    requires Placement(s)
    ensures Placement(s.(pid := s.pid + 1))
  {
    var u := s.(pid := s.pid + 1);
    SameHomesFormed(s, u);
    forall t | 0 <= t <= BOOT ensures Fits(u, t) { assert Fits(s, t); }
  }

  lemma SpawnKeeps(s: State, i: nat)
    requires Placement(s) && i < NUM_MAX_TASK && s.task[i].status == Exited
    ensures var u := WithTask(s.(pid := s.pid + 1), i, Newborn(s.pid + 1));
      Formed(u) && Placement(Push(u, ReadyQ, i))
  {
    assert Fits(s, i);
    var u := WithTask(s.(pid := s.pid + 1), i, Newborn(s.pid + 1));
    SameHomesFormed(s, u);
    var r := Push(u, ReadyQ, i);
    forall t | 0 <= t <= BOOT ensures Fits(r, t) { assert Fits(s, t); }
  }

  /** A task in no queue, waited for by nobody, may exit. */
  lemma RetireKeeps(s: State, t: nat)
    requires Placement(s) && t < NUM_MAX_TASK && s.task[t].home == None && Q(s, WaitQ(t)) == []
    ensures Placement(SetStatus(s, t, Exited))
  {
    var r := SetStatus(s, t, Exited);
    forall u | 0 <= u <= BOOT ensures Fits(r, u) { assert Fits(s, u); }
  }

  /** do_exit */
  function ExitTask(s: State): (r: State)
    requires Placement(s) && s.current < NUM_MAX_TASK && s.task[s.current].status == Running
    ensures Placement(r)
  {
    OnlyCurrentRuns(s);
    var m := ReleaseSlots(s, s.current);
    WokenKeeps(s, m);
    var w := WakeAll(m, WaitQ(s.current));
    WokenKeeps(m, w);
    assert SameIdentity(s.task[s.current], m.task[s.current]) && SameIdentity(m.task[s.current], w.task[s.current]);
    RetireKeeps(w, s.current);
    SetStatus(w, s.current, Exited)
  }

  /** do_mutex_lock_acquire, from its loop test to the next do_scheduler or to its return. */
  function Acquire(s: State, l: nat): (r: State)
    requires Placement(s) && s.current < NUM_MAX_TASK && s.task[s.current].status == Running && l < |s.lock|
    ensures Placement(r)
  {
    OnlyCurrentRuns(s);
    var t := s.current;
    if s.lock[l] then
      var u := SetResume(s, Acquiring(l));
      Park(u, t, LockQ(l), Blocked)
    else
      var u := SetResume(s, ToUser);
      var r := u.(lock := u.lock[l := true], task := u.task[t := u.task[t].(slots := Record(u.task[t].slots, l))]);
      assert SlotsOk(s.task[t].slots, |s.lock|);
      SamePlacesKeep(u, r);
      r
  }

  /** Write the lock into the first free slot; with no free slot the record is lost. */
  function Record(slots: seq<Option<nat>>, l: nat, from: nat := 0): (r: seq<Option<nat>>)
    requires from <= |slots|
    ensures |r| == |slots|
    ensures forall j :: 0 <= j < |r| ==> r[j] == slots[j] || r[j] == Some(l)
    decreases |slots| - from
  {
    if from == |slots| then slots
    else if slots[from].None? then slots[from := Some(l)]
    else Record(slots, l, from + 1)
  }

  function SetResume(s: State, resume: Resume): (r: State)
    requires Placement(s)
    ensures Placement(r)
    ensures r == s.(task := s.task[s.current := s.task[s.current].(resume := resume)])
  {
    var r := s.(task := s.task[s.current := s.task[s.current].(resume := resume)]);
    assert SlotsOk(s.task[s.current].slots, |s.lock|);
    SamePlacesKeep(s, r);
    r
  }

  /** do_condition_wait up to its do_scheduler */
  function WaitOnCondition(s: State, l: nat, c: nat): (r: State)
    requires Placement(s) && s.current < NUM_MAX_TASK && s.task[s.current].status == Running
    requires l < |s.lock| && CondQ(c) in s.queue
    ensures Placement(r)
  {
    OnlyCurrentRuns(s);
    var u := SetResume(s, Acquiring(l));
    var p := Park(u, s.current, CondQ(c), Blocked);
    var r := Release(p, l);
    WokenKeeps(p, r);
    r
  }

  /** do_semaphore_up */
  function SemUp(s: State, x: nat): (r: State)
    requires Placement(s) && x < |s.sem|
    ensures Placement(r)
  {
    if Q(s, SemQ(x)) != [] then
      var r := WakeFirst(s, SemQ(x));
      WokenKeeps(s, r);
      r
    else
      var r := s.(sem := s.sem[x := s.sem[x] + 1]);
      SamePlacesKeep(s, r);
      r
  }

  /** do_semaphore_down up to its do_scheduler */
  function SemDown(s: State, x: nat): (r: State)
    requires Placement(s) && s.current < NUM_MAX_TASK && s.task[s.current].status == Running && x < |s.sem|
    ensures Placement(r)
  {
    OnlyCurrentRuns(s);
    if s.sem[x] == 0 then Park(s, s.current, SemQ(x), Blocked)
    else
      var r := s.(sem := s.sem[x := s.sem[x] - 1]);
      SamePlacesKeep(s, r);
      r
  }

  /** do_barrier_wait up to its do_scheduler */
  function BarrierWait(s: State, b: nat): (r: State)
    requires Placement(s) && s.current < NUM_MAX_TASK && s.task[s.current].status == Running && b < |s.barrier|
    ensures Placement(r)
  {
    OnlyCurrentRuns(s);
    var word := s.barrier[b];
    if word.missing == 1 then
      var w := WakeAll(s, BarrierQ(b));
      WokenKeeps(s, w);
      var r := w.(barrier := w.barrier[b := word.(missing := word.goal)]);
      SamePlacesKeep(w, r);
      r
    else
      var u := s.(barrier := s.barrier[b := word.(missing := word.missing - 1)]);
      SamePlacesKeep(s, u);
      Park(u, s.current, BarrierQ(b), Blocked)
  }

  /** The word of the object is set; its queue is not looked at. */
  function WithWord(s: State, o: Object): State
    requires Exists(s, o)
  {
    match o
    case LockObject(l) => s.(lock := s.lock[l := false])
    case SemObject(x, value) => s.(sem := s.sem[x := value])
    case CondObject(_) => s
    case BarrierObject(b, goal) => s.(barrier := s.barrier[b := Barrier(goal, goal)])
  }

  /**
   do_mutex_lock_init, do_semaphore_init, do_condition_init and do_barrier_init: the queue is
   emptied, whoever is in it.
   */
  function Reset(s: State, o: Object): State
    requires Exists(s, o)
  {
    var w := WithWord(s, o);
    w.(queue := w.queue[QueueOf(o) := []])
  }

  lemma ResetKeeps(s: State, o: Object)
    requires Placement(s) && Exists(s, o) && Q(s, QueueOf(o)) == []
    ensures Placement(Reset(s, o)) && Reset(s, o) == WithWord(s, o)
  {
    assert s.queue[QueueOf(o) := []] == s.queue;
    SamePlacesKeep(s, Reset(s, o));
  }

  /**
   Initialising an object keeps every task in its place exactly when nobody waits on it: its
   waiters would stay BLOCKED in no queue at all.
   */
  lemma InitExact(s: State, o: Object)
    requires Placement(s) && Exists(s, o)
    ensures Placement(Reset(s, o)) <==> Q(s, QueueOf(o)) == []
    ensures forall t :: t in Q(s, QueueOf(o)) ==>
      t < |s.task| && Reset(s, o).task[t].status == Blocked && forall q :: !Queued(Reset(s, o), t, q)
  {
    var q0, r := QueueOf(o), Reset(s, o);
    forall t | t in Q(s, q0) ensures t < |s.task| && r.task[t].status == Blocked && forall q :: !Queued(r, t, q) {
      assert Lists(s, q0);
      assert Fits(s, t);
      forall q ensures !Queued(r, t, q) {
        assert Q(r, q) == if q == q0 then [] else Q(s, q);
        assert Lists(s, q);
      }
    }
    if Q(s, q0) == [] {
      ResetKeeps(s, o);
    } else {
      var t := Q(s, q0)[0];
      assert t in Q(s, q0) && Lists(s, q0);
      assert !AtHome(r, t) by {
        assert r.task[t].home == Some(q0) && !Queued(r, t, q0);
      }
    }
  }

  // ----------------------------------------------------------------- do_kill

  function IndexOf(ids: seq<nat>, t: nat): (k: nat)
    requires t in ids
    ensures k < |ids| && ids[k] == t && t !in ids[..k]
  {
    if ids[0] == t then 0 else 1 + IndexOf(ids[1..], t)
  }

  /** Unlink a blocked task from the registered lock queues, scanned from lock k on. */
  function LeaveLocks(s: State, i: nat, k: nat := 0): (r: State)
    requires Formed(s) && i < NUM_MAX_TASK && k <= MAX_LOCK_NUM_TOTAL
    ensures Formed(r)
    decreases MAX_LOCK_NUM_TOTAL - k
  {
    if k == MAX_LOCK_NUM_TOTAL then s
    else if i in Q(s, LockQ(k)) then LeaveLocks(Pull(s, LockQ(k), IndexOf(Q(s, LockQ(k)), i)), i, k + 1)
    else LeaveLocks(s, i, k + 1)
  }

  /** The unlinking do_kill does, by the status of its target. */
  function Detach(s: State, i: nat): (r: State)
    requires Formed(s) && Fitting(s) && i < NUM_MAX_TASK
    ensures Formed(r)
  {
    assert Fits(s, i) && AtHome(s, i);
    match s.task[i].status
    case Ready => Pull(s, ReadyQ, IndexOf(Q(s, ReadyQ), i))
    case Created => Pull(s, ReadyQ, IndexOf(Q(s, ReadyQ), i))
    case Sleeping => Pull(s, SleepQ, IndexOf(Q(s, SleepQ), i))
    case Blocked => LeaveLocks(s, i)
    case _ => s
  }

  /** do_kill up to its do_scheduler */
  function KillTask(s: State, n: nat): (r: State)
    requires Placement(s)
    ensures Formed(r)
  {
    var i := FindPid(s.task, n);
    if i == NUM_MAX_TASK || s.task[i].status == Exited then s
    else
      var e := SetStatus(Detach(s, i), i, Exited);
      WakeAll(ReleaseSlots(e, i), WaitQ(i))
  }

  predicate OnRegisteredLock(task: Task) {
    task.home.Some? && task.home.value.LockQ? && task.home.value.lock < MAX_LOCK_NUM_TOTAL
  }

  /** The target is not blocked, or blocked on one of the locks do_kill searches. */
  predicate KillReaches(s: State, n: nat)
    requires |s.task| == NUM_MAX_TASK + 1
  {
    var i := FindPid(s.task, n);
    i < NUM_MAX_TASK && s.task[i].status == Blocked ==> OnRegisteredLock(s.task[i])
  }

  /** The scan removes the task if it waits on a lock in the scanned range, and otherwise changes nothing. */
  lemma {:induction false} LeaveLocksEffect(s: State, i: nat, k: nat)
    requires Formed(s) && i < NUM_MAX_TASK && k <= MAX_LOCK_NUM_TOTAL
    ensures var r := LeaveLocks(s, i, k);
      match s.task[i].home
      case Some(LockQ(l)) =>
        if k <= l < MAX_LOCK_NUM_TOTAL then i in Q(s, LockQ(l)) && r == Pull(s, LockQ(l), IndexOf(Q(s, LockQ(l)), i))
          else r == s
      case _ => r == s
    decreases MAX_LOCK_NUM_TOTAL - k
  {
    if k == MAX_LOCK_NUM_TOTAL {
    } else {
      assert Lists(s, LockQ(k)) && AtHome(s, i);
      if i in Q(s, LockQ(k)) {
        LeaveLocksEffect(Pull(s, LockQ(k), IndexOf(Q(s, LockQ(k)), i)), i, k + 1);
      } else {
        LeaveLocksEffect(s, i, k + 1);
      }
    }
  }

  /** After a detach that reached it, the target is in no queue and nothing else has moved. */
  lemma DetachEffect(s: State, i: nat)
    requires Placement(s) && i < NUM_MAX_TASK
    ensures var r := Detach(s, i);
      if s.task[i].status == Blocked && !OnRegisteredLock(s.task[i])
      then r == s
      else r == s.(task := s.task[i := s.task[i].(home := None)], queue := r.queue) &&
           forall q :: Q(s, q) == [] ==> Q(r, q) == []
  {
    assert Fits(s, i) && AtHome(s, i);
    if s.task[i].status == Blocked {
      LeaveLocksEffect(s, i, 0);
    }
  }

  /** What do_kill does after it has marked its target only wakes tasks. */
  lemma FinishWakes(x: State, i: nat)
    requires Formed(x) && i < NUM_MAX_TASK
    ensures Woken(x, WakeAll(ReleaseSlots(x, i), WaitQ(i)))
  {
    var m := ReleaseSlots(x, i);
    WokenTransitive(x, m, WakeAll(m, WaitQ(i)));
  }

  /** Every task but the target keeps its process id, and its place unless it is woken. */
  lemma KillSpares(s: State, n: nat, t: nat)
    requires Placement(s) && t <= BOOT && t != FindPid(s.task, n)
    ensures var r := KillTask(s, n); r.current == s.current && SameIdentity(s.task[t], r.task[t])
  {
    var i := FindPid(s.task, n);
    if i < NUM_MAX_TASK && s.task[i].status != Exited {
      DetachEffect(s, i);
      var x := SetStatus(Detach(s, i), i, Exited);
      FinishWakes(x, i);
      assert x.task[t] == s.task[t];
    }
  }

  lemma KillSparesCurrent(s: State, n: nat)
    requires Placement(s) && s.current <= BOOT
    ensures var r := KillTask(s, n); r.current == s.current && r.task[s.current].pid == s.task[s.current].pid
  {
    var i := FindPid(s.task, n);
    if i == s.current < NUM_MAX_TASK && s.task[i].status != Exited {
      DetachEffect(s, i);
      var x := SetStatus(Detach(s, i), i, Exited);
      FinishWakes(x, i);
      assert SameIdentity(x.task[i], KillTask(s, n).task[i]);
    } else if i != s.current {
      KillSpares(s, n, s.current);
    }
  }

  /** A kill that reaches its target keeps the placement, and the target is gone. */
  lemma KillKeeps(s: State, n: nat)
    requires Placement(s) && KillReaches(s, n)
    ensures Placement(KillTask(s, n))
    ensures FindPid(s.task, n) < NUM_MAX_TASK ==> KillTask(s, n).task[FindPid(s.task, n)].status == Exited
  {
    var i := FindPid(s.task, n);
    if i < NUM_MAX_TASK && s.task[i].status != Exited {
      DetachedFits(s, i);
      var e := SetStatus(Detach(s, i), i, Exited);
      FinishWakes(e, i);
      KilledKeeps(s, i, e, KillTask(s, n));
    }
  }

  lemma DetachedFits(s: State, i: nat)
    requires Placement(s) && i < NUM_MAX_TASK
    requires s.task[i].status == Blocked ==> OnRegisteredLock(s.task[i])
    ensures var e := SetStatus(Detach(s, i), i, Exited);
      && Fitting(e)
      && e == s.(task := s.task[i := s.task[i].(home := None, status := Exited)], queue := e.queue)
      && forall q :: Q(s, q) == [] ==> Q(e, q) == []
  {
    DetachEffect(s, i);
    var e := SetStatus(Detach(s, i), i, Exited);
    forall t | 0 <= t <= BOOT ensures Fits(e, t) { assert Fits(s, t); }
  }

  lemma KilledKeeps(s: State, i: nat, e: State, r: State)
    requires Placement(s) && i < NUM_MAX_TASK && Woken(e, r) && Fitting(e) && Q(r, WaitQ(i)) == []
    requires e == s.(task := s.task[i := s.task[i].(home := None, status := Exited)], queue := e.queue)
    requires forall q :: Q(s, q) == [] ==> Q(e, q) == []
    ensures Placement(r) && r.task[i].status == Exited
  {
    forall t | 0 <= t < NUM_MAX_TASK
      ensures r.task[t].pid == s.task[t].pid
      ensures r.task[t].status == Exited <==> (s.task[t].status == Exited || t == i)
    {
      assert SameIdentity(e.task[t], r.task[t]) && Fits(e, t) && Fits(r, t);
    }
  }

  /**
   do_kill does what it promises (the target ends EXITED, in no queue, and every other
   task stays where its status says) exactly when it reaches its target: a target
   blocked anywhere but on a registered lock stays queued, dead or READY again.
   */
  lemma KillExact(s: State, n: nat)
    requires Placement(s) && FindPid(s.task, n) < NUM_MAX_TASK
    ensures var r := KillTask(s, n);
      (Placement(r) && r.task[FindPid(s.task, n)].status == Exited) <==> KillReaches(s, n)
  {
    if KillReaches(s, n) {
      KillKeeps(s, n);
    } else {
      KillMisses(s, n);
      if Placement(KillTask(s, n)) {
        assert Fits(KillTask(s, n), FindPid(s.task, n));
      }
    }
  }

  /** A blocked target that is not reached stays linked where it was, or is woken. */
  lemma KillMisses(s: State, n: nat)
    requires Placement(s) && !KillReaches(s, n)
    ensures KillTask(s, n).task[FindPid(s.task, n)].home.Some?
  {
    var i := FindPid(s.task, n);
    DetachEffect(s, i);
    assert Fits(s, i);
    var e := SetStatus(s, i, Exited);
    FinishWakes(e, i);
    assert SameIdentity(e.task[i], KillTask(s, n).task[i]);
  }

  // ----------------------------------------------------------------- steps and runs

  /** do_waitpid up to its do_scheduler */
  function WaitForPid(s: State, n: nat): (r: State)
    requires Placement(s) && s.current < NUM_MAX_TASK && s.task[s.current].status == Running
    ensures Placement(r)
  {
    OnlyCurrentRuns(s);
    var i := FindPid(s.task, n);
    if i == NUM_MAX_TASK || s.task[i].status == Exited then s
    else Park(s, s.current, WaitQ(i), Blocked)
  }

  /** do_sleep up to its do_scheduler; the deadline is a 32-bit word. */
  function SleepUntil(s: State, deadline: nat): (r: State)
    requires Placement(s) && s.current < NUM_MAX_TASK && s.task[s.current].status == Running
    ensures Placement(r)
  {
    OnlyCurrentRuns(s);
    var u := s.(task := s.task[s.current := s.task[s.current].(deadline := deadline)]);
    assert SlotsOk(s.task[s.current].slots, |s.lock|);
    SamePlacesKeep(s, u);
    Park(u, s.current, SleepQ, Sleeping)
  }

  /** What a system call (or the timer interrupt) does before it reaches do_scheduler. */
  function Act(s: State, e: Event): (r: State)
    requires Placement(s) && Allowed(s, e)
    ensures Formed(r)
    ensures !e.Kill? ==> Placement(r)
  {
    OnlyCurrentRuns(s);
    match e
    case Timer => s
    case SleepFor(time, now) => SleepUntil(s, (now + time) % WORD)
    case BlockOn(q) => Park(s, s.current, q, Blocked)
    case WakeOne(q) => var r := UnblockOne(s, q); WokenKeeps(s, r); r
    case WakeEvery(q) => var r := UnblockAll(s, q); WokenKeeps(s, r); r
    case Spawn => SpawnTask(s)
    case Exit => ExitTask(s)
    case WaitPid(n) => WaitForPid(s, n)
    case Kill(n) => KillTask(s, n)
    case Lock(l) => Acquire(s, l)
    case Unlock(l) => var r := Release(s, l); WokenKeeps(s, r); r
    case Retry => Acquire(s, s.task[s.current].resume.lock)
    case CondWait(l, c) => WaitOnCondition(s, l, c)
    case Signal(c) => var r := WakeFirst(s, CondQ(c)); WokenKeeps(s, r); r
    case Broadcast(c) => var r := WakeAll(s, CondQ(c)); WokenKeeps(s, r); r
    case Up(x) => SemUp(s, x)
    case Down(x) => SemDown(s, x)
    case Arrive(b) => BarrierWait(s, b)
    case Init(o) => ResetKeeps(s, o); Reset(s, o)
  }

  /** Does the call reach do_scheduler? */
  predicate Yields(s: State, e: Event)
    requires |s.task| == NUM_MAX_TASK + 1 && Allowed(s, e)
  {
    match e
    case Timer => true
    case SleepFor(_, _) => true
    case BlockOn(_) => true
    case Exit => true
    case WaitPid(n) => FindPid(s.task, n) < NUM_MAX_TASK && s.task[FindPid(s.task, n)].status != Exited
    case Kill(n) => FindPid(s.task, n) < NUM_MAX_TASK && s.task[s.current].pid == n
    case Lock(l) => s.lock[l]
    case Retry => s.lock[s.task[s.current].resume.lock]
    case CondWait(_, _) => true
    case Down(x) => s.sem[x] == 0
    case Arrive(b) => s.barrier[b].missing != 1
    case _ => false
  }

  /** The call may happen here: allowed, a kill reaches its target, and the scheduler finds a task to run. */
  ghost predicate Enabled(s: State, e: Event, c: Clock)
    requires Placement(s)
  {
    && Allowed(s, e)
    && (e.Kill? ==> KillReaches(s, e.pid))
    && (Yields(s, e) ==> Placement(Act(s, e)) && Q(Wake(Requeue(Act(s, e)), c), ReadyQ) != [])
  }

  ghost function Step(s: State, e: Event, c: Clock): (r: State)
    requires Placement(s) && Enabled(s, e, c)
    ensures Placement(r)
  {
    ActKeeps(s, e);
    if Yields(s, e) then Schedule(Act(s, e), c) else Act(s, e)
  }

  lemma ActKeeps(s: State, e: Event)
    requires Placement(s) && Allowed(s, e) && (e.Kill? ==> KillReaches(s, e.pid))
    ensures Placement(Act(s, e))
  {
    if e.Kill? {
      KillKeeps(s, e.pid);
    }
  }

  /** A call that returns without yielding leaves its caller running. */
  lemma CallerKeepsRunning(s: State, e: Event)
    requires Placement(s) && Allowed(s, e) && !Yields(s, e)
    ensures Act(s, e).current == s.current
    ensures Act(s, e).task[s.current].status == Running && Act(s, e).task[s.current].home == None
  {
    OnlyCurrentRuns(s);
    var r := Act(s, e);
    match e
    case WakeOne(q) => assert SameIdentity(s.task[s.current], r.task[s.current]);
    case WakeEvery(q) => assert SameIdentity(s.task[s.current], r.task[s.current]);
    case Unlock(l) => assert SameIdentity(s.task[s.current], r.task[s.current]);
    case Signal(c) => assert SameIdentity(s.task[s.current], r.task[s.current]);
    case Broadcast(c) => assert SameIdentity(s.task[s.current], r.task[s.current]);
    case Up(x) =>
    case Arrive(b) => assert SameIdentity(s.task[s.current], WakeAll(s, BarrierQ(b)).task[s.current]);
    case Kill(n) => KillSpares(s, n, s.current);
    case _ =>
  }

  /** `r` follows `s`; a state that is not placed could be followed by anything. */
  ghost predicate Next(s: State, e: Event, c: Clock, r: State) {
    Placement(s) ==> Enabled(s, e, c) && r == Step(s, e, c)
  }

  /** A call that yields: its effect, then the scheduler's. */
  lemma YieldNext(s: State, e: Event, c: Clock)
    requires Placement(s) && Allowed(s, e) && Yields(s, e) && (e.Kill? ==> KillReaches(s, e.pid))
    requires Placement(Act(s, e)) && Q(Wake(Requeue(Act(s, e)), c), ReadyQ) != []
    ensures Next(s, e, c, Schedule(Act(s, e), c))
  {
    assert Enabled(s, e, c);
    assert Step(s, e, c) == Schedule(Act(s, e), c);
  }

  /** A call that does not yield. */
  lemma ReturnNext(s: State, e: Event, c: Clock)
    requires Placement(s) && Allowed(s, e) && !Yields(s, e) && (e.Kill? ==> KillReaches(s, e.pid))
    ensures Next(s, e, c, Act(s, e))
  {
  }

  ghost predicate StepAt(states: seq<State>, events: seq<(Event, Clock)>, i: nat) {
    i < |events| && i + 1 < |states| && Next(states[i], events[i].0, events[i].1, states[i + 1])
  }

  /** A run: the states it passes through and the events between them. */
  ghost predicate Run(states: seq<State>, events: seq<(Event, Clock)>) {
    && |states| == |events| + 1
    && Placement(states[0])
    && forall i :: 0 <= i < |events| ==> StepAt(states, events, i)
  }

  /** Every state of every run is placed. */
  lemma {:induction false} RunKeepsPlacement(states: seq<State>, events: seq<(Event, Clock)>, i: nat)
    requires Run(states, events) && i < |states|
    ensures Placement(states[i])
  {
    if i == 0 {
    } else {
      RunKeepsPlacement(states, events, i - 1);
      assert StepAt(states, events, i - 1);
    }
  }

  /** Every step of a run is a step of the machine. */
  lemma NextInRun(states: seq<State>, events: seq<(Event, Clock)>, i: nat)
    requires Run(states, events) && i < |events|
    ensures Placement(states[i]) && Enabled(states[i], events[i].0, events[i].1)
    ensures states[i + 1] == Step(states[i], events[i].0, events[i].1)
  {
    RunKeepsPlacement(states, events, i);
    assert StepAt(states, events, i);
  }
}
