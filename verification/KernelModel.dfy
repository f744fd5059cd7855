/**
 The kernel's scheduler and blocking primitives as a state machine over values.

 A `State` holds what sched.c, lock.c, sem.c, cond.c and barrier.c keep in global
 variables: the process table, every queue, the lock, semaphore and barrier words and
 `current_running`.  A system call is one `Act` (its effect up to `do_scheduler`)
 followed, when the call yields, by one `Schedule`.  What a task still has to do in the
 kernel when it is switched back in is its `resume` field.
 */
module KernelModel {
  import opened Basics

  const NUM_MAX_TASK := 40
  // The boot PCB is not part of the process table; it gets the index after the table.
  const BOOT := NUM_MAX_TASK
  const LOCK_MAX_NUM := 10
  const MAX_LOCK_NUM_TOTAL := 34
  const INITIAL_PRIORITY := 4

  datatype Status = Blocked | Running | Ready | Exited | Created | Sleeping

  /** Every queue_t the kernel links tasks into. */
  datatype QueueId =
    | ReadyQ
    | SleepQ
    | BlockQ
    | LockQ(lock: nat)
    | SemQ(sem: nat)
    | CondQ(cond: nat)
    | BarrierQ(barrier: nat)
    | WaitQ(task: nat)

  /** What the task does in the kernel once `do_scheduler` returns to it. */
  datatype Resume = ToUser | Acquiring(lock: nat)

  /** `home` names the queue whose links run through this task's prev/next fields. */
  datatype Task = Task(
    status: Status,
    priority: int,
    deadline: nat,
    pid: nat,
    slots: seq<Option<nat>>,
    resume: Resume,
    home: Option<QueueId>)

  datatype Barrier = Barrier(goal: int, missing: int)

  datatype State = State(
    task: seq<Task>,
    queue: map<QueueId, seq<nat>>,
    current: nat,
    lock: seq<bool>,
    sem: seq<int>,
    barrier: seq<Barrier>,
    pid: nat)

  /** The readings of `get_timer` in one scheduler call: the first one, and the one that ends its idle loop. */
  datatype Clock = Clock(first: nat, last: nat)

  function Q(s: State, q: QueueId): seq<nat> {
    if q in s.queue then s.queue[q] else []
  }

  predicate IsWait(q: QueueId) {
    q != ReadyQ && q != SleepQ
  }

  // ----------------------------------------------------------------- well-formedness

  ghost predicate Shape(s: State) {
    && |s.task| == NUM_MAX_TASK + 1
    && s.current <= BOOT
    && |s.lock| >= MAX_LOCK_NUM_TOTAL
    && ReadyQ in s.queue && SleepQ in s.queue
    && (forall t :: 0 <= t < NUM_MAX_TASK ==> WaitQ(t) in s.queue)
    && (forall l :: 0 <= l < |s.lock| ==> LockQ(l) in s.queue)
    && (forall x :: 0 <= x < |s.sem| ==> SemQ(x) in s.queue)
    && (forall b :: 0 <= b < |s.barrier| ==> BarrierQ(b) in s.queue)
    && (forall t :: 0 <= t <= BOOT ==> SlotsOk(s.task[t].slots, |s.lock|))
  }

  predicate SlotsOk(slots: seq<Option<nat>>, locks: nat) {
    |slots| == LOCK_MAX_NUM && forall j :: 0 <= j < |slots| ==> slots[j] == None || slots[j].value < locks
  }

  /** A queue lists table entries that are at home in it, each once. */
  ghost predicate Lists(s: State, q: QueueId)
    requires |s.task| == NUM_MAX_TASK + 1
  {
    && (forall k :: 0 <= k < |Q(s, q)| ==> Q(s, q)[k] < NUM_MAX_TASK && s.task[Q(s, q)[k]].home == Some(q))
    && (forall j, k :: 0 <= j < k < |Q(s, q)| ==> Q(s, q)[j] != Q(s, q)[k])
  }

  /** A task with a home is listed there. */
  ghost predicate AtHome(s: State, t: nat)
    requires t < |s.task|
  {
    s.task[t].home.Some? ==> t in Q(s, s.task[t].home.value)
  }

  /** Queue contents and the tasks' homes describe each other. */
  ghost predicate Linked(s: State)
    requires Shape(s)
  {
    && (forall q :: Lists(s, q))
    && (forall t :: 0 <= t <= BOOT ==> AtHome(s, t))
  }

  ghost predicate Formed(s: State) {
    Shape(s) && Linked(s)
  }

  /** A task's status is the one its place calls for. */
  predicate Fits(s: State, t: nat)
    requires t < |s.task|
  {
    match s.task[t].home
    case None => (s.task[t].status == Running && t == s.current) || s.task[t].status == Exited || t == BOOT
    case Some(ReadyQ) => s.task[t].status in {Ready, Created}
    case Some(SleepQ) => s.task[t].status == Sleeping
    case Some(_) => s.task[t].status == Blocked
  }

  ghost predicate Fitting(s: State)
    requires Shape(s)
  {
    forall t :: 0 <= t <= BOOT ==> Fits(s, t)
  }

  /** Nobody waits for a task that has exited. */
  ghost predicate NoOrphans(s: State)
    requires Shape(s)
  {
    forall t :: 0 <= t < NUM_MAX_TASK && s.task[t].status == Exited ==> Q(s, WaitQ(t)) == []
  }

  /** Process ids of used table entries are distinct and were all handed out. */
  ghost predicate PidsDistinct(s: State)
    requires Shape(s)
  {
    && (forall t :: 0 <= t < NUM_MAX_TASK ==> s.task[t].pid <= s.pid)
    && (forall t, u :: 0 <= t < u < NUM_MAX_TASK && s.task[t].pid == s.task[u].pid ==> s.task[t].pid == 0)
    && (forall t :: 0 <= t < NUM_MAX_TASK && s.task[t].status != Exited ==> s.task[t].pid != 0)
  }

  /**
   The effect of moving tasks to the ready queue: nobody starts or stops existing,
   nobody's priority changes, the ready queue only grows at its tail and no other queue
   starts to fill.
   */
  ghost predicate Quiet(s: State, r: State) {
    && |r.task| == |s.task| && r.current == s.current && r.pid == s.pid
    && |r.lock| == |s.lock| && r.sem == s.sem && r.barrier == s.barrier
    && r.queue.Keys == s.queue.Keys
    && (forall t :: 0 <= t < |s.task| ==> SameIdentity(s.task[t], r.task[t]))
    && Q(s, ReadyQ) <= Q(r, ReadyQ)
    && (forall q :: q != ReadyQ && Q(s, q) == [] ==> Q(r, q) == [])
  }

  /** `b` is `a`, possibly after it was woken. */
  predicate SameIdentity(a: Task, b: Task) {
    && a.priority == b.priority && a.pid == b.pid && a.deadline == b.deadline && a.resume == b.resume
    && a.home.None? == b.home.None?
    && if a.home.None? then a == b else a.status == Exited || b.status != Exited
  }

  // ----------------------------------------------------------------- queue primitives

  /** Changing fields other than prev/next keeps the queues as they are. */
  lemma SameHomesFormed(s: State, r: State)
    requires Formed(s) && Shape(r) && r.queue == s.queue
    requires forall t :: 0 <= t <= BOOT ==> r.task[t].home == s.task[t].home
    ensures Formed(r)
  {
    forall q ensures Lists(r, q) {
      assert Lists(s, q);
      assert Q(r, q) == Q(s, q);
    }
    forall t | 0 <= t <= BOOT ensures AtHome(r, t) {
      assert AtHome(s, t);
    }
  }

  /** The state with one task's status replaced. */
  function WithStatus(s: State, t: nat, status: Status): State
    requires t < |s.task|
  {
    s.(task := s.task[t := s.task[t].(status := status)])
  }

  /** The state with t appended to q. */
  function WithLast(s: State, q: QueueId, t: nat): State
    requires q in s.queue && t < |s.task|
  {
    s.(task := s.task[t := s.task[t].(home := Some(q))], queue := s.queue[q := s.queue[q] + [t]])
  }

  /** The state with the k-th task of q taken out. */
  function WithoutEntry(s: State, q: QueueId, k: nat): State
    requires q in s.queue && k < |s.queue[q]| && s.queue[q][k] < |s.task|
  {
    var t := s.queue[q][k];
    s.(task := s.task[t := s.task[t].(home := None)], queue := s.queue[q := Without(s.queue[q], k)])
  }

  function Without(a: seq<nat>, k: nat): (b: seq<nat>)
    requires k < |a|
    ensures |b| == |a| - 1
    ensures forall j :: 0 <= j < |b| ==> b[j] == a[if j < k then j else j + 1]
  {
    a[..k] + a[k + 1..]
  }

  function SetStatus(s: State, t: nat, status: Status): (r: State)
    requires Formed(s) && t <= BOOT
    ensures Formed(r)
    ensures forall q :: Q(r, q) == Q(s, q)
  {
    var r := WithStatus(s, t, status);
    SameHomesFormed(s, r);
    r
  }

  /** queue_push */
  function Push(s: State, q: QueueId, t: nat): (r: State)
    requires Formed(s) && q in s.queue && t < NUM_MAX_TASK && s.task[t].home == None
    ensures Formed(r)
    ensures Q(r, q) == Q(s, q) + [t]
    ensures forall p :: p != q ==> Q(r, p) == Q(s, p)
  {
    PushLinked(s, q, t);
    WithLast(s, q, t)
  }

  lemma PushLinked(s: State, q: QueueId, t: nat)
    requires Formed(s) && q in s.queue && t < NUM_MAX_TASK && s.task[t].home == None
    ensures Formed(WithLast(s, q, t))
  {
    var r := WithLast(s, q, t);
    forall p ensures Lists(r, p) {
      assert Lists(s, p);
      assert t !in Q(s, p);
    }
    forall u | 0 <= u <= BOOT ensures AtHome(r, u) {
      assert AtHome(s, u);
    }
  }

  /** queue_remove (and, with k == 0, queue_dequeue) */
  function Pull(s: State, q: QueueId, k: nat): (r: State)
    requires Formed(s) && k < |Q(s, q)|
    ensures Formed(r)
    ensures Q(r, q) == Without(Q(s, q), k)
    ensures forall p :: p != q ==> Q(r, p) == Q(s, p)
  {
    PullLinked(s, q, k);
    WithoutEntry(s, q, k)
  }

  lemma PullLinked(s: State, q: QueueId, k: nat)
    requires Formed(s) && k < |Q(s, q)|
    ensures s.queue[q][k] < NUM_MAX_TASK && Formed(WithoutEntry(s, q, k))
  {
    assert Lists(s, q);
    var r := WithoutEntry(s, q, k);
    forall p ensures Lists(r, p) {
      if p == q { PullOwn(s, q, k); } else { PullOther(s, q, k, p); }
    }
    forall u | 0 <= u <= BOOT ensures AtHome(r, u) { PullAtHome(s, q, k, u); }
  }

  lemma WithoutDistinct(a: seq<nat>, k: nat)
    requires k < |a| && forall i, j :: 0 <= i < j < |a| ==> a[i] != a[j]
    ensures var b := Without(a, k);
      && (forall i :: 0 <= i < |b| ==> b[i] in a && b[i] != a[k])
      && (forall i, j :: 0 <= i < j < |b| ==> b[i] != b[j])
  {
  }

  lemma PullOwn(s: State, q: QueueId, k: nat)
    requires Formed(s) && k < |Q(s, q)| && s.queue[q][k] < NUM_MAX_TASK
    ensures Lists(WithoutEntry(s, q, k), q)
  {
    assert Lists(s, q);
    WithoutDistinct(Q(s, q), k);
    assert Q(WithoutEntry(s, q, k), q) == Without(Q(s, q), k);
  }

  lemma PullOther(s: State, q: QueueId, k: nat, p: QueueId)
    requires Formed(s) && k < |Q(s, q)| && s.queue[q][k] < NUM_MAX_TASK && p != q
    ensures Lists(WithoutEntry(s, q, k), p)
  {
    assert Lists(s, q) && Lists(s, p);
    assert Q(WithoutEntry(s, q, k), p) == Q(s, p);
    assert s.task[Q(s, q)[k]].home == Some(q);
  }

  lemma PullAtHome(s: State, q: QueueId, k: nat, u: nat)
    requires Formed(s) && k < |Q(s, q)| && s.queue[q][k] < NUM_MAX_TASK && u <= BOOT
    ensures AtHome(WithoutEntry(s, q, k), u)
  {
    assert AtHome(s, u);
    var r, before, after := WithoutEntry(s, q, k), Q(s, q), Without(Q(s, q), k);
    if r.task[u].home == Some(q) {
      var j :| 0 <= j < |before| && before[j] == u;
      assert after[if j < k then j else j - 1] == u;
    }
  }

  /** Unlink the k-th task of q, mark it READY and push it on the ready queue. */
  function MoveToReady(s: State, q: QueueId, k: nat): (r: State)
    requires Formed(s) && q != ReadyQ && k < |Q(s, q)|
    ensures Formed(r)
    ensures Q(r, q) == Without(Q(s, q), k)
    ensures Q(r, ReadyQ) == Q(s, ReadyQ) + [Q(s, q)[k]]
    ensures forall p :: p != q && p != ReadyQ ==> Q(r, p) == Q(s, p)
  {
    assert Lists(s, q);
    var t := Q(s, q)[k];
    Push(SetStatus(Pull(s, q, k), t, Ready), ReadyQ, t)
  }

  lemma MoveTask(s: State, q: QueueId, k: nat)
    requires Formed(s) && q != ReadyQ && k < |Q(s, q)|
    ensures var t, r := Q(s, q)[k], MoveToReady(s, q, k);
      && t < NUM_MAX_TASK && s.task[t].home == Some(q)
      && r == s.(task := s.task[t := s.task[t].(status := Ready, home := Some(ReadyQ))], queue := r.queue)
      && r.queue.Keys == s.queue.Keys
  {
    assert Lists(s, q);
    var t := Q(s, q)[k];
    var a := WithoutEntry(s, q, k);
    var b := WithStatus(a, t, Ready);
    assert MoveToReady(s, q, k) == WithLast(b, ReadyQ, t);
    assert b.task == s.task[t := s.task[t].(status := Ready, home := None)];
  }

  lemma MoveIsQuiet(s: State, q: QueueId, k: nat)
    requires Formed(s) && q != ReadyQ && k < |Q(s, q)|
    ensures Quiet(s, MoveToReady(s, q, k))
  {
    MoveTask(s, q, k);
  }

  lemma MoveFits(s: State, q: QueueId, k: nat)
    requires Formed(s) && q != ReadyQ && k < |Q(s, q)| && Fitting(s)
    ensures Fitting(MoveToReady(s, q, k))
  {
    MoveTask(s, q, k);
    var r := MoveToReady(s, q, k);
    forall t | 0 <= t <= BOOT ensures Fits(r, t) {
      assert Fits(s, t);
    }
  }

  // ----------------------------------------------------------------- waking tasks

  /** `r` is `s` after some tasks were moved to the ready queue. */
  ghost predicate Woken(s: State, r: State) {
    Formed(s) && Formed(r) && Quiet(s, r) && (Fitting(s) ==> Fitting(r))
  }

  lemma WokenTransitive(a: State, b: State, c: State)
    requires Woken(a, b) && Woken(b, c)
    ensures Woken(a, c)
  {
  }

  lemma MoveWakes(s: State, q: QueueId, k: nat)
    requires Formed(s) && q != ReadyQ && k < |Q(s, q)|
    ensures Woken(s, MoveToReady(s, q, k))
  {
    MoveIsQuiet(s, q, k);
    if Fitting(s) {
      MoveFits(s, q, k);
    }
  }

  function Priority(s: State, t: nat): int {
    if t < |s.task| then s.task[t].priority else 0
  }

  /**
   The walk both the scheduler and do_unblock_one use to choose a task: from the head,
   step on while the next task has the higher priority.
   */
  function Pick(s: State, ids: seq<nat>, from: nat := 0): (k: nat)
    requires from < |ids|
    ensures from <= k < |ids|
    ensures forall j :: from < j <= k ==> Priority(s, ids[j - 1]) < Priority(s, ids[j])
    ensures k + 1 < |ids| ==> Priority(s, ids[k]) >= Priority(s, ids[k + 1])
    decreases |ids| - from
  {
    if from + 1 < |ids| && Priority(s, ids[from]) < Priority(s, ids[from + 1]) then Pick(s, ids, from + 1) else from
  }

  /** do_unblock_one */
  function UnblockOne(s: State, q: QueueId): (r: State)
    requires Formed(s) && q != ReadyQ
    ensures Woken(s, r)
    ensures Q(s, q) != [] ==> |Q(r, q)| == |Q(s, q)| - 1
    ensures r.lock == s.lock
  {
    if Q(s, q) == [] then s
    else
      MoveWakes(s, q, Pick(s, Q(s, q)));
      MoveToReady(s, q, Pick(s, Q(s, q)))
  }

  /** do_unblock_all */
  function UnblockAll(s: State, q: QueueId): (r: State)
    requires Formed(s) && q != ReadyQ
    ensures Woken(s, r)
    ensures Q(r, q) == []
    ensures r.lock == s.lock
    decreases |Q(s, q)|
  {
    if Q(s, q) == [] then s
    else
      var m := UnblockOne(s, q);
      var r := UnblockAll(m, q);
      WokenTransitive(s, m, r);
      r
  }

  lemma UnblockStep(s: State, q: QueueId)
    requires Formed(s) && q != ReadyQ && Q(s, q) != []
    ensures Formed(UnblockOne(s, q)) && UnblockAll(UnblockOne(s, q), q) == UnblockAll(s, q)
    ensures |Q(UnblockOne(s, q), q)| < |Q(s, q)|
  {
  }

  /** Dequeue the head of q and make it ready, if there is one. */
  function WakeFirst(s: State, q: QueueId): (r: State)
    requires Formed(s) && q != ReadyQ
    ensures Woken(s, r)
    ensures Q(s, q) != [] ==> Q(r, q) == Q(s, q)[1..]
    ensures r.lock == s.lock
  {
    if Q(s, q) == [] then s
    else
      MoveWakes(s, q, 0);
      MoveToReady(s, q, 0)
  }

  /** clear_waiting_queue */
  function WakeAll(s: State, q: QueueId): (r: State)
    requires Formed(s) && q != ReadyQ
    ensures Woken(s, r)
    ensures Q(r, q) == []
    ensures r.lock == s.lock
    decreases |Q(s, q)|
  {
    if Q(s, q) == [] then s
    else
      var m := WakeFirst(s, q);
      var r := WakeAll(m, q);
      WokenTransitive(s, m, r);
      r
  }

  lemma WakeStep(s: State, q: QueueId)
    requires Formed(s) && q != ReadyQ && Q(s, q) != []
    ensures Formed(WakeFirst(s, q)) && WakeAll(WakeFirst(s, q), q) == WakeAll(s, q)
    ensures |Q(WakeFirst(s, q), q)| < |Q(s, q)|
  {
  }

  /** What do_mutex_lock_release does to the lock table of one waiting task. */
  function Wiped(slots: seq<Option<nat>>, l: nat): seq<Option<nat>>
    requires |slots| == LOCK_MAX_NUM
  {
    if slots[0] == Some(l) then slots else [slots[0]] + seq(LOCK_MAX_NUM - 1, _ => None)
  }

  /** The state with one task replaced. */
  function WithTask(s: State, t: nat, task: Task): State
    requires t < |s.task|
  {
    s.(task := s.task[t := task])
  }

  function WipeWaiters(s: State, l: nat): (r: State)
    requires Formed(s) && l < |s.lock|
    ensures Woken(s, r)
    ensures forall q :: Q(r, q) == Q(s, q)
    ensures r.lock == s.lock
  {
    var r := s.(task := seq(|s.task|, t requires 0 <= t < |s.task| =>
      if s.task[t].home == Some(LockQ(l)) then s.task[t].(slots := Wiped(s.task[t].slots, l)) else s.task[t]));
    SameHomesFormed(s, r);
    assert Fitting(s) ==> Fitting(r) by {
      if Fitting(s) {
        forall t | 0 <= t <= BOOT ensures Fits(r, t) { assert Fits(s, t); }
      }
    }
    r
  }

  /** do_mutex_lock_release */
  function Release(s: State, l: nat): (r: State)
    requires Formed(s) && l < |s.lock|
    ensures Woken(s, r)
    ensures s.lock[l] ==> Q(r, LockQ(l)) == []
    ensures r.lock == s.lock[l := false]
  {
    if !s.lock[l] then s
    else
      var u := s.(lock := s.lock[l := false]);
      SameHomesFormed(s, u);
      assert Woken(s, u) by {
        if Fitting(s) {
          forall t | 0 <= t <= BOOT ensures Fits(u, t) { assert Fits(s, t); }
        }
      }
      var w := WipeWaiters(u, l);
      var r := UnblockAll(w, LockQ(l));
      WokenTransitive(s, u, w);
      WokenTransitive(s, w, r);
      r
  }

  /** The locks recorded in a task's lock table, released slot by slot (do_exit, do_kill). */
  function ReleaseSlots(s: State, t: nat, j: nat := 0): (r: State)
    requires Formed(s) && t <= BOOT && j <= LOCK_MAX_NUM
    ensures Woken(s, r)
    decreases LOCK_MAX_NUM - j
  {
    if j == LOCK_MAX_NUM then s
    else if s.task[t].slots[j].None? then ReleaseSlots(s, t, j + 1)
    else
      assert SlotsOk(s.task[t].slots, |s.lock|);
      var m := Release(s, s.task[t].slots[j].value);
      var r := ReleaseSlots(m, t, j + 1);
      WokenTransitive(s, m, r);
      r
  }

  lemma ReleaseSlotsStep(s: State, t: nat, j: nat)
    requires Formed(s) && t <= BOOT && j < LOCK_MAX_NUM && |s.task[t].slots| == LOCK_MAX_NUM
    ensures s.task[t].slots[j].None? ==> ReleaseSlots(s, t, j) == ReleaseSlots(s, t, j + 1)
    ensures s.task[t].slots[j].Some? ==>
      var l := s.task[t].slots[j].value; l < |s.lock| && ReleaseSlots(s, t, j) == ReleaseSlots(Release(s, l), t, j + 1)
  {
  }

  /** The first sleeper in queue order whose deadline has passed, or the queue's length. */
  function FirstDue(s: State, ids: seq<nat>, now: nat, from: nat := 0): (k: nat)
    requires from <= |ids|
    ensures from <= k <= |ids|
    ensures forall j :: from <= j < k ==> Deadline(s, ids[j]) >= now
    ensures k < |ids| ==> Deadline(s, ids[k]) < now
    decreases |ids| - from
  {
    if from == |ids| || Deadline(s, ids[from]) < now then from else FirstDue(s, ids, now, from + 1)
  }

  function Deadline(s: State, t: nat): nat {
    if t < |s.task| then s.task[t].deadline else 0
  }

  /** check_sleeping */
  function CheckSleeping(s: State, now: nat): (r: State)
    requires Formed(s)
    ensures Woken(s, r)
  {
    var k := FirstDue(s, Q(s, SleepQ), now);
    if k == |Q(s, SleepQ)| then s
    else
      MoveWakes(s, SleepQ, k);
      MoveToReady(s, SleepQ, k)
  }
}
