/**
 The kernel's code over its own data structures: PCBs in a table, linked in place into
 intrusive queues.  Every method is tied, write by write, to the step of the state machine
 it implements: `st` records the state the objects stand for and `Mirrors` says they show it.
 */
module KernelObjects {
  import opened Basics
  import opened KernelModel
  import opened KernelSteps
  import opened TaskQueue

  // ----------------------------------------------------------------- calls, write by write

  lemma SleepInOrder(s: State, time: nat, now: nat)
    requires Placement(s) && Allowed(s, SleepFor(time, now))
    ensures s.current < NUM_MAX_TASK && |s.task| == NUM_MAX_TASK + 1 && SleepQ in s.queue
    ensures s.task[s.current].home == None
    ensures var u := WithTask(s, s.current, s.task[s.current].(deadline := (now + time) % WORD));
      Act(s, SleepFor(time, now)) == WithLast(WithStatus(u, s.current, Sleeping), SleepQ, s.current)
  {
    OnlyCurrentRuns(s);
  }

  lemma BlockInOrder(s: State, q: QueueId)
    requires Placement(s) && Allowed(s, BlockOn(q))
    ensures s.current < NUM_MAX_TASK && |s.task| == NUM_MAX_TASK + 1 && q in s.queue && s.task[s.current].home == None
    ensures Act(s, BlockOn(q)) == WithLast(WithStatus(s, s.current, Blocked), q, s.current)
  {
    OnlyCurrentRuns(s);
  }

  predicate FreeIsIdle(s: State) {
    && |s.task| == NUM_MAX_TASK + 1 && ReadyQ in s.queue
    && forall i :: 0 <= i < NUM_MAX_TASK && s.task[i].status == Exited ==>
         s.task[i].home == None && WaitQ(i) in s.queue && s.queue[WaitQ(i)] == []
  }

  function Spawned(s: State): State
    requires FreeIsIdle(s)
  {
    var u := s.(pid := s.pid + 1);
    if FreeEntry(u.task) == NUM_MAX_TASK then u
      else WithLast(WithTask(u, FreeEntry(u.task), Newborn(u.pid)), ReadyQ, FreeEntry(u.task))
  }

  lemma FreeAreIdle(s: State)
    requires Placement(s)
    ensures FreeIsIdle(s)
  {
    forall t | 0 <= t < NUM_MAX_TASK && s.task[t].status == Exited
      ensures s.task[t].home == None && s.queue[WaitQ(t)] == []
    {
      assert Fits(s, t);
    }
  }

  lemma SpawnInOrder(s: State)
    requires Placement(s) && Allowed(s, Spawn)
    ensures FreeIsIdle(s) && Act(s, Spawn) == Spawned(s)
  {
    FreeAreIdle(s);
  }

  lemma UnlockedFormed(s: State, l: nat)
    requires Formed(s) && l < |s.lock|
    ensures Formed(s.(lock := s.lock[l := false])) && LockQ(l) in s.queue
  {
    SameHomesFormed(s, s.(lock := s.lock[l := false]));
  }

  /** The state after the first k waiters of a lock had their lock tables wiped. */
  function WipeFirst(s: State, l: nat, k: nat): State
    requires |s.task| == NUM_MAX_TASK + 1 && k <= |Q(s, LockQ(l))|
    requires forall t :: 0 <= t <= BOOT ==> |s.task[t].slots| == LOCK_MAX_NUM
  {
    s.(task := seq(|s.task|, t requires 0 <= t < |s.task| =>
      if t in Q(s, LockQ(l))[..k] then s.task[t].(slots := Wiped(s.task[t].slots, l)) else s.task[t]))
  }

  lemma WipeStep(s: State, l: nat, k: nat)
    requires Formed(s) && k < |Q(s, LockQ(l))|
    ensures var u, t := WipeFirst(s, l, k), Q(s, LockQ(l))[k];
      t < NUM_MAX_TASK && u.task[t] == s.task[t] && |s.task[t].slots| == LOCK_MAX_NUM &&
      WipeFirst(s, l, k + 1) == WithTask(u, t, s.task[t].(slots := Wiped(s.task[t].slots, l)))
  {
    assert Lists(s, LockQ(l));
    var ids := Q(s, LockQ(l));
    assert ids[..k + 1] == ids[..k] + [ids[k]];
    assert ids[k] !in ids[..k];
    assert SlotsOk(s.task[ids[k]].slots, |s.lock|);
  }

  lemma WipeDone(s: State, l: nat)
    requires Formed(s) && l < |s.lock|
    ensures WipeFirst(s, l, 0) == s && WipeFirst(s, l, |Q(s, LockQ(l))|) == WipeWaiters(s, l)
  {
    var ids := Q(s, LockQ(l));
    assert Lists(s, LockQ(l)) && ids[..|ids|] == ids;
    assert WipeFirst(s, l, 0).task == s.task;
    forall t | 0 <= t <= BOOT ensures t in ids <==> s.task[t].home == Some(LockQ(l)) {
      assert AtHome(s, t);
    }
    assert WipeFirst(s, l, |ids|).task == WipeWaiters(s, l).task;
  }

  lemma UnblockInOrder(s: State, q: QueueId)
    requires Formed(s) && q != ReadyQ && Q(s, q) != []
    ensures var k := Pick(s, Q(s, q)); var t := Q(s, q)[k];
      && t < NUM_MAX_TASK && |s.task| == NUM_MAX_TASK + 1 && q in s.queue && ReadyQ in s.queue
      && UnblockOne(s, q) == WithLast(WithStatus(WithoutEntry(s, q, k), t, Ready), ReadyQ, t)
  {
    assert Lists(s, q);
  }

  lemma InitReturns(s: State, o: Object, c: Clock)
    requires Placement(s) && Allowed(s, Init(o))
    ensures Next(s, Init(o), c, WithWord(s, o))
  {
    ResetKeeps(s, o);
    ReturnNext(s, Init(o), c);
  }

  lemma ExitInOrder(s: State)
    requires Placement(s) && Allowed(s, Exit)
    ensures s.current < NUM_MAX_TASK && |s.task| == NUM_MAX_TASK + 1 && WaitQ(s.current) in s.queue
    ensures var w := WakeAll(ReleaseSlots(s, s.current), WaitQ(s.current));
      |w.task| == |s.task| && Act(s, Exit) == WithStatus(w, s.current, Exited)
  {
  }

  lemma WaitParks(s: State, n: nat)
    requires Placement(s) && s.current < NUM_MAX_TASK && s.task[s.current].status == Running
    ensures s.task[s.current].home == None
    ensures var i := FindPid(s.task, n);
      if i < NUM_MAX_TASK && s.task[i].status != Exited
      then WaitQ(i) in s.queue && WaitForPid(s, n) == WithLast(WithStatus(s, s.current, Blocked), WaitQ(i), s.current)
      else WaitForPid(s, n) == s
  {
    OnlyCurrentRuns(s);
  }

  lemma DetachCases(s: State, t: nat)
    requires Formed(s) && Fitting(s) && t < NUM_MAX_TASK
    ensures s.task[t].status in {Ready, Created} ==>
      t in Q(s, ReadyQ) && Detach(s, t) == Pull(s, ReadyQ, IndexOf(Q(s, ReadyQ), t))
    ensures s.task[t].status == Sleeping ==>
      t in Q(s, SleepQ) && Detach(s, t) == Pull(s, SleepQ, IndexOf(Q(s, SleepQ), t))
    ensures s.task[t].status == Blocked ==> Detach(s, t) == LeaveLocks(s, t)
    ensures s.task[t].status in {Running, Exited} ==> Detach(s, t) == s
  {
    assert Fits(s, t) && AtHome(s, t);
  }

  lemma LeaveStep(s: State, t: nat, k: nat)
    requires Formed(s) && t < NUM_MAX_TASK && k < MAX_LOCK_NUM_TOTAL
    ensures LockQ(k) in s.queue
    ensures LeaveLocks(s, t, k) ==
      if t in Q(s, LockQ(k)) then LeaveLocks(Pull(s, LockQ(k), IndexOf(Q(s, LockQ(k)), t)), t, k + 1)
        else LeaveLocks(s, t, k + 1)
  {
  }

  lemma PulledAt(s: State, q: QueueId, t: nat)
    requires Formed(s) && t in Q(s, q)
    ensures var k := IndexOf(Q(s, q), t); q in s.queue && t < NUM_MAX_TASK && Pull(s, q, k) == WithoutEntry(s, q, k)
  {
    assert Lists(s, q);
  }

  lemma AcquireInOrder(s: State, l: nat)
    requires Placement(s) && s.current < NUM_MAX_TASK && s.task[s.current].status == Running && l < |s.lock|
    ensures |s.task| == NUM_MAX_TASK + 1 && LockQ(l) in s.queue && s.task[s.current].home == None
    ensures var t := s.current;

      && (s.lock[l] ==>
            var u := WithTask(s, t, s.task[t].(resume := Acquiring(l)));
            Acquire(s, l) == WithLast(WithStatus(u, t, Blocked), LockQ(l), t))
      && (!s.lock[l] ==>
           var u := WithTask(s, t, s.task[t].(resume := ToUser));
           var v := u.(lock := u.lock[l := true]);
           Acquire(s, l) == WithTask(v, t, v.task[t].(slots := Record(v.task[t].slots, l))))
  {
    OnlyCurrentRuns(s);
  }

  lemma CondWaitInOrder(s: State, l: nat, x: nat)
    requires Placement(s) && Allowed(s, CondWait(l, x))
    ensures |s.task| == NUM_MAX_TASK + 1 && CondQ(x) in s.queue && s.current < NUM_MAX_TASK
    ensures s.task[s.current].home == None
    ensures var t := s.current;
      var p := WithStatus(WithLast(WithTask(s, t, s.task[t].(resume := Acquiring(l))), CondQ(x), t), t, Blocked);
      Formed(p) && |p.lock| == |s.lock| && Act(s, CondWait(l, x)) == Release(p, l)
  {
    OnlyCurrentRuns(s);
    var t := s.current;
    var u := SetResume(s, Acquiring(l));
    assert Park(u, t, CondQ(x), Blocked) == WithStatus(WithLast(u, CondQ(x), t), t, Blocked);
  }

  lemma ArriveInOrder(s: State, b: nat)
    requires Placement(s) && s.current < NUM_MAX_TASK && s.task[s.current].status == Running && b < |s.barrier|
    ensures |s.task| == NUM_MAX_TASK + 1 && BarrierQ(b) in s.queue && s.current < NUM_MAX_TASK
    ensures s.task[s.current].home == None
    ensures var word := s.barrier[b];
      && (word.missing == 1 ==>
           var w := WakeAll(s, BarrierQ(b));
           |w.barrier| == |s.barrier| &&
             BarrierWait(s, b) == w.(barrier := w.barrier[b := word.(missing := word.goal)]))
      && (word.missing != 1 ==>
           var u := s.(barrier := s.barrier[b := word.(missing := word.missing - 1)]);
           BarrierWait(s, b) == WithLast(WithStatus(u, s.current, Blocked), BarrierQ(b), s.current))
  {
    OnlyCurrentRuns(s);
  }

  lemma DownInOrder(s: State, x: nat)
    requires Placement(s) && Allowed(s, Down(x))
    ensures |s.task| == NUM_MAX_TASK + 1 && SemQ(x) in s.queue && s.current < NUM_MAX_TASK
    ensures s.task[s.current].home == None
    ensures if s.sem[x] == 0 then Act(s, Down(x)) == WithLast(WithStatus(s, s.current, Blocked), SemQ(x), s.current)
      else Act(s, Down(x)) == s.(sem := s.sem[x := s.sem[x] - 1])
  {
    OnlyCurrentRuns(s);
  }

  // ----------------------------------------------------------------- start-up

  /** The queues every kernel has. */
  predicate Needed(s: State, q: QueueId) {
    match q
    case ReadyQ => true
    case SleepQ => true
    case BlockQ => true
    case LockQ(l) => l < |s.lock|
    case SemQ(x) => x < |s.sem|
    case CondQ(_) => false
    case BarrierQ(b) => b < |s.barrier|
    case WaitQ(t) => t < NUM_MAX_TASK
  }

  function Unused(): Task {
    Task(Exited, 0, 0, 0, [None, None, None, None, None, None, None, None, None, None], ToUser, None)
  }

  function Blank(ids: set<QueueId>, lock: seq<bool>, sem: seq<int>, barrier: seq<Barrier>): State {
    State(seq(NUM_MAX_TASK + 1, _ => Unused()), map q | q in ids :: [], BOOT, lock, sem, barrier, 0)
  }

  /** What init_pcb makes of a blank state. */
  function Booted(s: State): State
    requires |s.task| == NUM_MAX_TASK + 1 && ReadyQ in s.queue
  {
    WithLast(WithTask(WithStatus(s, BOOT, Created).(pid := s.pid + 1), 1, Newborn(1)), ReadyQ, 1)
  }

  lemma BootFormed(s: State)
    requires s == Blank(s.queue.Keys, s.lock, s.sem, s.barrier)
    requires |s.lock| >= MAX_LOCK_NUM_TOTAL
    requires forall q :: Needed(s, q) ==> q in s.queue
    ensures ReadyQ in s.queue && Formed(Booted(s)) && forall q :: Q(Booted(s), q) == if q == ReadyQ then [1] else []
  {
  }

  lemma BootPlaced(s: State)
    requires s == Blank(s.queue.Keys, s.lock, s.sem, s.barrier)
    requires |s.lock| >= MAX_LOCK_NUM_TOTAL
    requires forall q :: Needed(s, q) ==> q in s.queue
    ensures ReadyQ in s.queue && Placement(Booted(s))
  {
    BootFormed(s);
    var r := Booted(s);
    forall t | 0 <= t <= BOOT ensures Fits(r, t) { }
  }

  ghost predicate PcbNew(i: nat, x: Pcb)
    reads x
  {
    x.id == i && x.owner == null && x.Fields() == Unused()
  }

  ghost predicate TableOk(table: seq<Pcb>)
    reads table
  {
    |table| == NUM_MAX_TASK + 1 && forall i :: 0 <= i < |table| ==> PcbNew(i, table[i])
  }

  ghost predicate QueueNew(q: QueueId, x: Queue)
    reads x
  {
    x.id == q && x.items == [] && x.head == null && x.tail == null
  }

  /** If the first check wakes nobody, somebody sleeps and is due at a later reading. */
  lemma FirstCheck(s: State, first: nat, last: nat)
    requires Placement(s) && Q(Wake(s, Clock(first, last)), ReadyQ) != []
    ensures var m := CheckSleeping(s, first);
      Q(m, ReadyQ) == [] ==> m == s && Q(m, SleepQ) != [] && Q(CheckSleeping(m, last), ReadyQ) != [] && last != first
  {
  }

  /** The clock values are those get_timer returned: the first one, and one of them. */
  predicate Taken(c: Clock, readings: seq<nat>) {
    readings != [] && c.first == readings[0] && c.last in readings
  }

  class Kernel {
    // The process table, followed by the boot PCB.
    const pcb: seq<Pcb>
    const queues: map<QueueId, Queue>
    const locked: array<bool>
    const semValue: array<int>
    const barriers: array<Barrier>
    var current: Pcb
    var lastPid: nat
    ghost var st: State

    /** The kernel over its static memory, every table entry marked EXITED. */
    constructor (pcb: seq<Pcb>, queues: map<QueueId, Queue>,
      locked: array<bool>, semValue: array<int>, barriers: array<Barrier>)
      requires TableOk(pcb) && ReadyQ in queues && forall q :: q in queues ==> QueueNew(q, queues[q])
      ensures this.pcb == pcb && this.queues == queues && this.locked == locked && this.semValue == semValue
      ensures this.barriers == barriers
      ensures Mirrors() && st == Blank(queues.Keys, locked[..], semValue[..], barriers[..])
    {
      this.pcb, this.queues, this.locked, this.semValue, this.barriers := pcb, queues, locked, semValue, barriers;
      current, lastPid := pcb[BOOT], 0;
      st := Blank(queues.Keys, locked[..], semValue[..], barriers[..]);
      new;
      forall q ensures QueueOk(q) && ListOk(q) { assert q in queues ==> QueueNew(q, queues[q]); }
      forall i: nat ensures TaskOk(i) { assert i < |pcb| ==> PcbNew(i, pcb[i]); }
    }

    /** init_pcb: the shell's table entry is filled in, CREATED and ready. */
    method InitPcb()
      requires Mirrors() && (forall q :: Needed(st, q) ==> q in queues) && |st.lock| >= MAX_LOCK_NUM_TOTAL
      requires st == Blank(queues.Keys, locked[..], semValue[..], barriers[..])
      modifies Repr()
      ensures Mirrors() && Placement(st) && st == Booted(old(st))
    {
      BootPlaced(st);
      StartShell();
    }

    method StartShell()
      requires Mirrors() && |pcb| == NUM_MAX_TASK + 1 && ReadyQ in queues && st.task[1].home == None
      modifies Repr()
      ensures Mirrors() && st == Booted(old(st))
    {
      WriteStatus(pcb[BOOT], Created);
      NextPid();
      FillIn(pcb[1], 1);
      PushTask(ReadyQ, pcb[1]);
    }

    ghost function Heap(): set<object> {
      Nodes(pcb) + queues.Values
    }

    /** A queue object: its own id, well linked, through table entries. */
    ghost predicate QueueOk(q: QueueId)
      reads Heap()
    {
      q in queues ==> queues[q].id == q && Nodes(queues[q].items) <= Nodes(pcb) && queues[q].Valid()
    }

    ghost predicate HeapOk()
      reads Heap()
    {
      && (forall i :: 0 <= i < |pcb| ==> pcb[i].id == i)
      && (forall q :: QueueOk(q))
    }

    /** Only queue q and the links of its tasks and of `item` have changed. */
    twostate predicate OnlyQueue(q: QueueId, item: Pcb)
      reads Heap()
    {
      && (forall p :: p in queues && p != q ==> queues[p].items == old(queues[p].items))
      && (forall i :: 0 <= i < |pcb| ==> pcb[i].Fields() == old(pcb[i].Fields()))
      && (forall i :: 0 <= i < |pcb| && pcb[i] != item ==> pcb[i].owner == old(pcb[i].owner))
    }

    lemma QueuesDistinct(q: QueueId)
      requires HeapOk() && q in queues
      ensures forall p :: p in queues && p != q ==> queues[p] != queues[q]
      ensures forall p, k :: p in queues && 0 <= k < |queues[p].items| ==> queues[p].items[k].owner == queues[p]
    {
      forall p, k | p in queues && 0 <= k < |queues[p].items| ensures queues[p].items[k].owner == queues[p] {
        assert QueueOk(p) && queues[p].Joined(k);
      }
      forall p | p in queues && p != q ensures queues[p] != queues[q] {
        assert QueueOk(p) && QueueOk(q);
      }
    }

    /** A queue none of whose tasks had its links changed is still right. */
    twostate lemma QueueUntouched(p: QueueId)
      requires p in queues && old(QueueOk(p)) && queues[p].items == old(queues[p].items)
      requires queues[p].head == old(queues[p].head) && queues[p].tail == old(queues[p].tail)
      requires forall k :: 0 <= k < |queues[p].items| ==> var x := queues[p].items[k];
        x.prev == old(x.prev) && x.next == old(x.next) && x.owner == old(x.owner)
      ensures QueueOk(p)
    {
      forall k | 0 <= k < |queues[p].items| ensures queues[p].Joined(k) {
        assert old(queues[p].Joined(k));
      }
    }

    method Link(q: QueueId, item: Pcb)
      requires HeapOk() && q in queues && item in pcb && item.owner == null
      modifies Heap()
      ensures HeapOk() && OnlyQueue(q, item)
      ensures queues[q].items == old(queues[q].items) + [item] && item.owner == queues[q]
    {
      QueuesDistinct(q);
      assert QueueOk(q);
      assert queues[q].items != [] ==> queues[q].Joined(|queues[q].items| - 1);
      queues[q].Push(item);
      forall p | p in queues && p != q ensures QueueOk(p) {
        assert old(QueueOk(p));
        QueueUntouched(p);
      }
    }

    method Unlink(q: QueueId, item: Pcb, ghost k: nat)
      requires HeapOk() && q in queues && k < |queues[q].items| && queues[q].items[k] == item
      modifies Heap()
      ensures HeapOk() && OnlyQueue(q, item)
      ensures queues[q].items == old(queues[q].items)[..k] + old(queues[q].items)[k + 1..] && item.owner == null
    {
      QueuesDistinct(q);
      assert QueueOk(q);
      ghost var x := queues[q];
      assert x.Joined(k) && (k > 0 ==> x.Joined(k - 1)) && (k + 1 < |x.items| ==> x.Joined(k + 1));
      var _ := queues[q].Remove(item, k);
      forall p | p in queues && p != q ensures QueueOk(p) {
        assert old(QueueOk(p));
        QueueUntouched(p);
      }
    }

    method Unhead(q: QueueId) returns (item: Pcb)
      requires HeapOk() && q in queues && queues[q].items != []
      modifies Heap()
      ensures item == old(queues[q].items)[0]
      ensures HeapOk() && OnlyQueue(q, item)
      ensures queues[q].items == old(queues[q].items)[1..] && item.owner == null
    {
      QueuesDistinct(q);
      assert QueueOk(q);
      ghost var x := queues[q];
      assert x.Joined(0) && (1 < |x.items| ==> x.Joined(1));
      item := queues[q].Dequeue();
      forall p | p in queues && p != q ensures QueueOk(p) {
        assert old(QueueOk(p));
        QueueUntouched(p);
      }
    }

    // --------------------------------------------------------------- the state the objects stand for

    ghost function Repr(): set<object> {
      Heap() + {this, locked, semValue, barriers}
    }

    static ghost function Ids(items: seq<Pcb>): seq<nat> {
      seq(|items|, k requires 0 <= k < |items| => items[k].id)
    }

    ghost function OwnerOf(home: Option<QueueId>): Queue? {
      if home.Some? && home.value in queues then queues[home.value] else null
    }

    ghost predicate ListOk(q: QueueId)
      reads Repr()
    {
      q in queues ==> Ids(queues[q].items) == Q(st, q)
    }

    ghost predicate TaskOk(i: nat)
      reads Repr()
    {
      i < |pcb| && i < |st.task| ==>
        pcb[i].Fields() == st.task[i].(home := None) && pcb[i].owner == OwnerOf(st.task[i].home)
    }

    ghost predicate WordsOk()
      reads Repr()
    {
      && locked[..] == st.lock && semValue[..] == st.sem && barriers[..] == st.barrier && lastPid == st.pid
      && st.current < |pcb| && current == pcb[st.current]
    }

    /** The objects show exactly the recorded state. */
    ghost predicate Mirrors()
      reads Repr()
    {
      && HeapOk() && |pcb| == |st.task| && queues.Keys == st.queue.Keys
      && (forall q :: ListOk(q))
      && (forall i: nat :: TaskOk(i))
      && WordsOk()
    }

    /** Recording a change of one queue and of one task's place. */
    twostate lemma Rehomed(c: (QueueId, Pcb))
      requires old(Mirrors()) && c.0 in queues && c.1.id < |pcb| && c.1 == pcb[c.1.id]
      requires HeapOk() && OnlyQueue(c.0, c.1) && |st.task| == |old(st).task|
      requires st == old(st).(task := st.task, queue := old(st).queue[c.0 := Q(st, c.0)])
      requires st.task == old(st).task[c.1.id := old(st).task[c.1.id].(home := st.task[c.1.id].home)]
      requires Ids(queues[c.0].items) == Q(st, c.0) && c.1.owner == OwnerOf(st.task[c.1.id].home)
      requires current == old(current) && lastPid == old(lastPid)
      requires unchanged(locked) && unchanged(semValue) && unchanged(barriers)
      ensures Mirrors()
    {
      forall p ensures ListOk(p) { assert old(ListOk(p)); }
      forall i: nat ensures TaskOk(i) { assert old(TaskOk(i)); }
    }

    /** Recording that a task was linked last into a queue. */
    twostate lemma TaskLinked(c: (QueueId, Pcb))
      requires old(Mirrors()) && c.0 in queues && c.1.id < |pcb| && c.1 == pcb[c.1.id]
      requires HeapOk() && OnlyQueue(c.0, c.1) && st == WithLast(old(st), c.0, c.1.id)
      requires queues[c.0].items == old(queues[c.0].items) + [c.1] && c.1.owner == queues[c.0]
      requires current == old(current) && lastPid == old(lastPid)
      requires unchanged(locked) && unchanged(semValue) && unchanged(barriers)
      ensures Mirrors()
    {
      assert old(ListOk(c.0));
      Rehomed(c);
    }

    /** Recording that the k-th task of a queue was unlinked. */
    twostate lemma TaskUnlinked(c: (QueueId, Pcb, nat))
      requires old(Mirrors()) && c.0 in queues && c.1.id < |pcb| && c.1 == pcb[c.1.id]
      requires c.2 < |Q(old(st), c.0)| && Q(old(st), c.0)[c.2] == c.1.id
      requires HeapOk() && OnlyQueue(c.0, c.1) && st == WithoutEntry(old(st), c.0, c.2)
      requires c.2 < |old(queues[c.0].items)| && c.1.owner == null
      requires queues[c.0].items == old(queues[c.0].items)[..c.2] + old(queues[c.0].items)[c.2 + 1..]
      requires current == old(current) && lastPid == old(lastPid)
      requires unchanged(locked) && unchanged(semValue) && unchanged(barriers)
      ensures Mirrors()
    {
      assert old(ListOk(c.0));
      Rehomed((c.0, c.1));
    }

    /** queue_push on a kernel queue */
    method PushTask(q: QueueId, item: Pcb)
      requires Mirrors() && q in queues && item.id < |pcb| && item == pcb[item.id] && st.task[item.id].home == None
      modifies Repr()
      ensures Mirrors() && st == WithLast(old(st), q, item.id)
    {
      assert TaskOk(item.id);
      Link(q, item);
      st := WithLast(st, q, item.id);
      TaskLinked((q, item));
    }

    /** The k-th linked block is the table entry the state lists k-th. */
    lemma ItemAt(q: QueueId, k: nat)
      requires Mirrors() && q in queues && k < |Q(st, q)|
      ensures k < |queues[q].items| && Q(st, q)[k] < |pcb| && queues[q].items[k] == pcb[Q(st, q)[k]]
      ensures pcb[Q(st, q)[k]].id == Q(st, q)[k]
    {
      assert ListOk(q) && QueueOk(q);
      assert Ids(queues[q].items)[k] == queues[q].items[k].id;
      assert queues[q].items[k] in Nodes(queues[q].items);
    }

    /** queue_remove on a kernel queue */
    method RemoveTask(q: QueueId, item: Pcb, ghost k: nat)
      requires Mirrors() && q in queues && k < |Q(st, q)| && Q(st, q)[k] < |pcb| && item == pcb[Q(st, q)[k]]
      modifies Repr()
      ensures Mirrors() && st == WithoutEntry(old(st), q, k)
    {
      ItemAt(q, k);
      Unlink(q, item, k);
      st := WithoutEntry(st, q, k);
      TaskUnlinked((q, item, k));
    }

    /** queue_dequeue on a kernel queue */
    method DequeueTask(q: QueueId) returns (item: Pcb)
      requires Mirrors() && q in queues && Q(st, q) != []
      modifies Repr()
      ensures Q(old(st), q)[0] < |pcb| && item == pcb[Q(old(st), q)[0]] && item.id == Q(old(st), q)[0]
      ensures Mirrors() && st == WithoutEntry(old(st), q, 0)
    {
      ItemAt(q, 0);
      item := Unhead(q);
      st := WithoutEntry(st, q, 0);
      TaskUnlinked((q, item, 0));
    }

    /** Recording new fields of one task, its links apart. */
    twostate lemma FieldsWritten(i: nat)
      requires old(Mirrors()) && i < |pcb| && |st.task| == |old(st).task| && TaskOk(i)
      requires st == old(st).(task := old(st).task[i := st.task[i]])
      requires current == old(current) && lastPid == old(lastPid)
      requires unchanged(locked) && unchanged(semValue) && unchanged(barriers)
      requires HeapOk() && forall q :: q in queues ==> queues[q].items == old(queues[q].items)
      requires forall j :: 0 <= j < |pcb| && j != i ==> pcb[j].Fields() == old(pcb[j].Fields())
      requires forall j :: 0 <= j < |pcb| && j != i ==> pcb[j].owner == old(pcb[j].owner)
      ensures Mirrors()
    {
      forall p ensures ListOk(p) { assert old(ListOk(p)); }
      forall j: nat ensures TaskOk(j) { assert old(TaskOk(j)); }
    }

    /** Writing a field other than the links leaves every queue linked. */
    twostate lemma HeapKept(x: Pcb)
      requires old(HeapOk()) && x in pcb
      requires forall q :: q in queues ==> unchanged(queues[q])
      requires forall i :: 0 <= i < |pcb| ==> pcb[i].prev == old(pcb[i].prev)
      requires forall i :: 0 <= i < |pcb| ==> pcb[i].next == old(pcb[i].next)
      requires forall i :: 0 <= i < |pcb| ==> pcb[i].owner == old(pcb[i].owner)
      ensures HeapOk()
    {
      forall q ensures QueueOk(q) {
        assert old(QueueOk(q));
        if q in queues {
          assert forall k :: 0 <= k < |queues[q].items| ==> queues[q].items[k] in Nodes(queues[q].items);
          QueueUntouched(q);
        }
      }
    }

    /** Writing one of the kernel's words leaves tasks and queues alone. */
    twostate lemma WordsWritten()
      requires old(Mirrors()) && WordsOk() && st.task == old(st).task && st.queue == old(st).queue
      requires (forall q :: q in queues ==> unchanged(queues[q])) && (forall i :: 0 <= i < |pcb| ==> unchanged(pcb[i]))
      ensures Mirrors()
    {
      forall q ensures QueueOk(q) && ListOk(q) { assert old(QueueOk(q)) && old(ListOk(q)); }
      forall i: nat ensures TaskOk(i) { assert old(TaskOk(i)); }
    }

    method WriteStatus(item: Pcb, status: Status)
      requires Mirrors() && item.id < |pcb| && item == pcb[item.id]
      modifies Repr()
      ensures Mirrors() && st == WithStatus(old(st), item.id, status)
    {
      assert TaskOk(item.id);
      item.status := status;
      st := WithStatus(st, item.id, status);
      HeapKept(item);
      FieldsWritten(item.id);
    }

    method WriteDeadline(item: Pcb, deadline: nat)
      requires Mirrors() && item.id < |pcb| && item == pcb[item.id]
      modifies Repr()
      ensures Mirrors() && st == WithTask(old(st), item.id, old(st).task[item.id].(deadline := deadline))
    {
      assert TaskOk(item.id);
      item.deadline := deadline;
      st := WithTask(st, item.id, st.task[item.id].(deadline := deadline));
      HeapKept(item);
      FieldsWritten(item.id);
    }

    method WriteResume(item: Pcb, resume: Resume)
      requires Mirrors() && item.id < |pcb| && item == pcb[item.id]
      modifies Repr()
      ensures Mirrors() && st == WithTask(old(st), item.id, old(st).task[item.id].(resume := resume))
    {
      assert TaskOk(item.id);
      item.resume := resume;
      st := WithTask(st, item.id, st.task[item.id].(resume := resume));
      HeapKept(item);
      FieldsWritten(item.id);
    }

    method WriteSlots(item: Pcb, slots: seq<Option<nat>>)
      requires Mirrors() && item.id < |pcb| && item == pcb[item.id]
      modifies Repr()
      ensures Mirrors() && st == WithTask(old(st), item.id, old(st).task[item.id].(slots := slots))
    {
      assert TaskOk(item.id);
      item.slots := slots;
      st := WithTask(st, item.id, st.task[item.id].(slots := slots));
      HeapKept(item);
      FieldsWritten(item.id);
    }

    // --------------------------------------------------------------- waking tasks

    /** What the pointers of the k-th linked block lead to. */
    lemma NodeAt(q: QueueId, k: nat)
      requires Mirrors() && q in queues && k < |Q(st, q)|
      ensures var ids := Q(st, q); ids[k] < |pcb| && var x := pcb[ids[k]];
        && x.id == ids[k] && x.priority == Priority(st, ids[k]) && x.deadline == Deadline(st, ids[k])
        && (k == 0 ==> queues[q].head == x)
        && (queues[q].tail == x <==> k + 1 == |ids|)
        && (if k + 1 == |ids| then x.next == null else ids[k + 1] < |pcb| && x.next == pcb[ids[k + 1]])
    {
      ItemAt(q, k);
      assert QueueOk(q) && ListOk(q) && queues[q].Joined(k);
      assert TaskOk(Q(st, q)[k]);
      if k + 1 < |Q(st, q)| {
        ItemAt(q, k + 1);
      }
    }

    /** The walk of scheduler() and do_unblock_one along a queue that is not empty. */
    method Walk(q: QueueId) returns (item: Pcb)
      requires Mirrors() && q in queues && Q(st, q) != []
      ensures Mirrors()
      ensures var t := Q(st, q)[Pick(st, Q(st, q))]; t < |pcb| && item == pcb[t] && item.id == t
    {
      ghost var ids, k := Q(st, q), 0;
      NodeAt(q, 0);
      item := queues[q].head;
      if 1 < |ids| { NodeAt(q, 1); }
      while item != queues[q].tail && item.priority < item.next.priority
        invariant Mirrors()
        invariant 0 <= k < |ids| && ids[k] < |pcb| && item == pcb[ids[k]] && item.id == ids[k]
        invariant item.priority == Priority(st, ids[k])
        invariant item == queues[q].tail <==> k + 1 == |ids|
        invariant k + 1 < |ids| ==>
          ids[k + 1] < |pcb| && item.next == pcb[ids[k + 1]] && item.next.priority == Priority(st, ids[k + 1])
        invariant Pick(st, ids) == Pick(st, ids, k)
        decreases |ids| - k
      {
        item := item.next;
        k := k + 1;
        NodeAt(q, k);
        if k + 1 < |ids| { NodeAt(q, k + 1); }
      }
    }

    /** queue_is_empty */
    predicate IsEmpty(q: QueueId)
      requires q in queues
      reads queues[q]
    {
      queues[q].head == null
    }

    lemma EmptyMeans(q: QueueId)
      requires Mirrors() && q in queues
      ensures IsEmpty(q) <==> Q(st, q) == []
    {
      assert QueueOk(q) && ListOk(q);
    }

    /** do_unblock_one */
    method DoUnblockOne(q: QueueId)
      requires Mirrors() && Formed(st) && q in queues && q != ReadyQ
      modifies Repr()
      ensures Mirrors() && st == UnblockOne(old(st), q)
    {
      EmptyMeans(q);
      if !IsEmpty(q) {
        var item := Walk(q);
        UnblockInOrder(st, q);
        RemoveTask(q, item, Pick(st, Q(st, q)));
        WriteStatus(item, Ready);
        PushTask(ReadyQ, item);
      }
    }

    /** do_unblock_all */
    method DoUnblockAll(q: QueueId)
      requires Mirrors() && Formed(st) && q in queues && q != ReadyQ
      modifies Repr()
      ensures Mirrors() && st == UnblockAll(old(st), q)
    {
      EmptyMeans(q);
      while !IsEmpty(q)
        invariant Mirrors() && Formed(st) && (IsEmpty(q) <==> Q(st, q) == [])
        invariant UnblockAll(st, q) == UnblockAll(old(st), q)
        decreases |Q(st, q)|
      {
        UnblockStep(st, q);
        DoUnblockOne(q);
        EmptyMeans(q);
      }
    }

    /** Dequeue the head of a queue that is not empty and make it ready. */
    method WakeHead(q: QueueId)
      requires Mirrors() && Formed(st) && q in queues && q != ReadyQ && Q(st, q) != []
      modifies Repr()
      ensures Mirrors() && st == WakeFirst(old(st), q)
    {
      assert Lists(st, q);
      var item := DequeueTask(q);
      WriteStatus(item, Ready);
      PushTask(ReadyQ, item);
    }

    /** clear_waiting_queue */
    method ClearWaitingQueue(q: QueueId)
      requires Mirrors() && Formed(st) && q in queues && q != ReadyQ
      modifies Repr()
      ensures Mirrors() && st == WakeAll(old(st), q)
    {
      EmptyMeans(q);
      while !IsEmpty(q)
        invariant Mirrors() && Formed(st) && (IsEmpty(q) <==> Q(st, q) == [])
        invariant WakeAll(st, q) == WakeAll(old(st), q)
        decreases |Q(st, q)|
      {
        WakeStep(st, q);
        WakeHead(q);
        EmptyMeans(q);
      }
    }

    /** The search of check_sleeping: the first sleeper that is due, if any. */
    method FindDue(now: nat) returns (item: Pcb?)
      requires Mirrors() && SleepQ in queues
      ensures Mirrors()
      ensures var ids := Q(st, SleepQ); var k := FirstDue(st, ids, now);
        if k == |ids| then item == null else ids[k] < |pcb| && item == pcb[ids[k]] && item.id == ids[k]
    {
      ghost var ids, k := Q(st, SleepQ), 0;
      assert QueueOk(SleepQ) && ListOk(SleepQ);
      if ids != [] { NodeAt(SleepQ, 0); }
      item := queues[SleepQ].head;
      while item != null
        invariant Mirrors() && 0 <= k <= |ids|
        invariant item == null <==> k == |ids|
        invariant item != null ==>
          ids[k] < |pcb| && item == pcb[ids[k]] && item.id == ids[k] && item.deadline == Deadline(st, ids[k])
        invariant FirstDue(st, ids, now) == FirstDue(st, ids, now, k)
        decreases |ids| - k
      {
        if item.deadline < now {
          return;
        }
        NodeAt(SleepQ, k);
        item := item.next;
        k := k + 1;
        if k < |ids| { NodeAt(SleepQ, k); }
      }
    }

    /** check_sleeping */
    method DoCheckSleeping(now: nat)
      requires Mirrors() && Formed(st)
      modifies Repr()
      ensures Mirrors() && st == CheckSleeping(old(st), now)
    {
      var item := FindDue(now);
      if item != null {
        assert Lists(st, SleepQ);
        RemoveTask(SleepQ, item, FirstDue(st, Q(st, SleepQ), now));
        WriteStatus(item, Ready);
        PushTask(ReadyQ, item);
      }
    }

    // --------------------------------------------------------------- the scheduler

    lemma CurrentTask()
      requires Mirrors()
      ensures st.current < |st.task| && current == pcb[st.current] && current.id == st.current
      ensures current.Fields() == st.task[st.current].(home := None)
    {
      assert TaskOk(st.current);
    }

    /** The first lines of scheduler(): a RUNNING task goes back to the ready queue. */
    method PutBack()
      requires Mirrors() && Placement(st)
      modifies Repr()
      ensures Mirrors() && st == Requeue(old(st))
    {
      CurrentTask();
      OnlyCurrentRuns(st);
      if current.status == Running {
        WriteStatus(current, Ready);
        if current.id != BOOT {
          PushTask(ReadyQ, current);
        }
      }
    }

    /** The last lines of scheduler(): choose a task and make it current. */
    method SwitchTo()
      requires Mirrors() && Q(st, ReadyQ) != []
      modifies Repr()
      ensures Q(old(st), ReadyQ)[Pick(old(st), Q(old(st), ReadyQ))] < |old(st).task|
      ensures Mirrors() && st == Switched(old(st), Pick(old(st), Q(old(st), ReadyQ)))
    {
      var item := Walk(ReadyQ);
      ghost var k := Pick(st, Q(st, ReadyQ));
      LowerPriority();
      MakeCurrent(item);
      RemoveTask(ReadyQ, item, k);
      WriteStatus(item, Running);
    }

    method LowerPriority()
      requires Mirrors()
      modifies Repr()
      ensures Mirrors() && st == Lowered(old(st))
    {
      CurrentTask();
      assert TaskOk(st.current);
      current.priority := current.priority - 1;
      st := Lowered(st);
      HeapKept(current);
      FieldsWritten(st.current);
    }

    method MakeCurrent(item: Pcb)
      requires Mirrors() && item.id < |pcb| && item == pcb[item.id]
      modifies this
      ensures Mirrors() && st == old(st).(current := item.id) && current == item
    {
      current := item;
      st := st.(current := item.id);
      WordsWritten();
    }

    /** The scheduler can be called here: some reading of the timer lets it find a task to run. */
    ghost predicate Schedulable(s: State, readings: seq<nat>, j: nat) {
      Placement(s) && j < |readings| && Q(Wake(Requeue(s), Clock(readings[0], readings[j])), ReadyQ) != []
    }

    /** One turn of the idle loop; true if nobody sleeps either. */
    method IdleTurn(now: nat) returns (quiet: bool)
      requires Mirrors() && Formed(st)
      modifies Repr()
      ensures Mirrors() && quiet == (Q(old(st), SleepQ) == [])
      ensures st == if quiet then old(st) else CheckSleeping(old(st), now)
      ensures st == old(st) || Q(st, ReadyQ) != []
    {
      CheckWakesOrStays(st, now);
      EmptyMeans(SleepQ);
      quiet := IsEmpty(SleepQ);
      if !quiet {
        DoCheckSleeping(now);
      }
    }

    /**
     The idle loop of scheduler(): check until a sleeper is due.  `readings` are the values
     successive calls of get_timer return, the first of which was used before the loop.
     */
    method Idle(readings: seq<nat>, ghost j: nat) returns (ghost last: nat)
      requires Mirrors() && Formed(st) && Q(st, ReadyQ) == [] && Q(st, SleepQ) != []
      requires 0 < j < |readings| && Q(CheckSleeping(st, readings[j]), ReadyQ) != []
      modifies Repr()
      ensures Mirrors() && last in readings && Q(st, ReadyQ) != [] && st == CheckSleeping(old(st), last)
    {
      ghost var s0 := st;
      var i := 1;
      last := readings[i];
      var quiet := IdleTurn(readings[i]);
      EmptyMeans(ReadyQ);
      while !quiet && IsEmpty(ReadyQ)
        invariant Mirrors() && (IsEmpty(ReadyQ) <==> Q(st, ReadyQ) == []) && !quiet && 0 < i <= j && last == readings[i]
        invariant st == CheckSleeping(s0, last) && (Q(st, ReadyQ) == [] ==> st == s0)
        decreases j - i
      {
        assert i != j;
        i := i + 1;
        last := readings[i];
        quiet := IdleTurn(readings[i]);
        EmptyMeans(ReadyQ);
      }
    }

    /** The wake-ups of scheduler(): one check, and the idle loop while nothing is ready. */
    method WakeSleepers(readings: seq<nat>, ghost j: nat) returns (ghost c: Clock)
      requires Mirrors() && Placement(st) && j < |readings|
      requires Q(Wake(st, Clock(readings[0], readings[j])), ReadyQ) != []
      modifies Repr()
      ensures Mirrors() && Taken(c, readings) && Q(st, ReadyQ) != [] && st == Wake(old(st), c)
    {
      FirstCheck(st, readings[0], readings[j]);
      WakeAfterFirst(st, Clock(readings[0], readings[0]));
      DoCheckSleeping(readings[0]);
      c := Clock(readings[0], readings[0]);
      EmptyMeans(ReadyQ);
      if IsEmpty(ReadyQ) {
        ghost var last := Idle(readings, j);
        c := Clock(readings[0], last);
        WakeAfterFirst(old(st), c);
      }
    }

    /** scheduler() */
    method Scheduler(readings: seq<nat>, ghost j: nat) returns (ghost c: Clock)
      requires Mirrors() && Schedulable(st, readings, j)
      modifies Repr()
      ensures Q(Wake(Requeue(old(st)), c), ReadyQ) != [] && Taken(c, readings)
      ensures Mirrors() && st == Schedule(old(st), c)
    {
      PutBack();
      c := WakeSleepers(readings, j);
      ScheduleInOrder(old(st), c);
      SwitchTo();
    }

    // --------------------------------------------------------------- system calls

    /** Mark the current task and push it on q. */
    method ParkCurrent(q: QueueId, status: Status)
      requires Mirrors() && q in queues && st.current < |st.task| && st.task[st.current].home == None
      modifies Repr()
      ensures Mirrors() && st == WithLast(WithStatus(old(st), old(st).current, status), q, old(st).current)
    {
      CurrentTask();
      WriteStatus(current, status);
      PushTask(q, current);
    }

    /** do_sleep */
    method DoSleep(time: nat, now: nat, readings: seq<nat>, ghost j: nat) returns (ghost c: Clock)
      requires Mirrors() && Placement(st) && Allowed(st, SleepFor(time, now))
      requires Schedulable(Act(st, SleepFor(time, now)), readings, j)
      modifies Repr()
      ensures Mirrors() && Next(old(st), SleepFor(time, now), c, st)
      ensures Yields(old(st), SleepFor(time, now)) ==> Taken(c, readings)
    {
      CurrentTask();
      SleepInOrder(st, time, now);
      WriteDeadline(current, (now + time) % WORD);
      ParkCurrent(SleepQ, Sleeping);
      c := Scheduler(readings, j);
      YieldNext(old(st), SleepFor(time, now), c);
    }

    /** do_block */
    method DoBlock(q: QueueId, readings: seq<nat>, ghost j: nat) returns (ghost c: Clock)
      requires Mirrors() && Placement(st) && Allowed(st, BlockOn(q))
      requires Schedulable(Act(st, BlockOn(q)), readings, j)
      modifies Repr()
      ensures Mirrors() && Next(old(st), BlockOn(q), c, st)
      ensures Yields(old(st), BlockOn(q)) ==> Taken(c, readings)
    {
      BlockInOrder(st, q);
      ParkCurrent(q, Blocked);
      c := Scheduler(readings, j);
      YieldNext(old(st), BlockOn(q), c);
    }

    /** queue_init of a queue nobody is in */
    method InitQueue(q: QueueId)
      requires Mirrors() && q in queues && Q(st, q) == []
      modifies queues[q]
      ensures Mirrors()
    {
      assert QueueOk(q) && ListOk(q);
      queues[q].head := null;
      queues[q].tail := null;
    }

    /** The search of do_spawn for a table entry that is not in use. */
    method FindFree() returns (i: nat)
      requires Mirrors() && |pcb| == NUM_MAX_TASK + 1
      ensures Mirrors() && i == FreeEntry(st.task)
    {
      i := 0;
      assert TaskOk(0);
      while pcb[i].status != Exited
        invariant Mirrors() && i < NUM_MAX_TASK && pcb[i].status == st.task[i].status
        invariant FreeEntry(st.task) == FreeEntry(st.task, i)
        decreases NUM_MAX_TASK - i
      {
        i := i + 1;
        if i >= NUM_MAX_TASK {
          return;
        }
        assert TaskOk(i);
      }
    }

    /** The field assignments of do_spawn. */
    method FillIn(item: Pcb, pid: nat)
      requires Mirrors() && item.id < |pcb| && item == pcb[item.id] && st.task[item.id].home == None
      modifies Repr()
      ensures Mirrors() && st == WithTask(old(st), item.id, Newborn(pid))
    {
      assert TaskOk(item.id);
      item.Fill(pid);
      st := WithTask(st, item.id, Newborn(pid));
      HeapKept(item);
      FieldsWritten(item.id);
    }

    /** do_spawn */
    method DoSpawn(ghost c: Clock)
      requires Mirrors() && Placement(st) && Allowed(st, Spawn)
      modifies Repr()
      ensures Mirrors() && Next(old(st), Spawn, c, st)
    {
      SpawnInOrder(st);
      ReturnNext(st, Spawn, c);
      UseFree();
    }

    method UseFree()
      requires Mirrors() && FreeIsIdle(st)
      modifies Repr()
      ensures Mirrors() && st == Spawned(old(st))
    {
      NextPid();
      var i := FindFree();
      if i < NUM_MAX_TASK {
        Admit(i);
      }
    }

    /** The rest of do_spawn, for a free table entry. */
    method Admit(i: nat)
      requires Mirrors() && i < |pcb| && st.task[i].home == None
      requires ReadyQ in queues && WaitQ(i) in queues && Q(st, WaitQ(i)) == []
      modifies Repr()
      ensures Mirrors() && st == WithLast(WithTask(old(st), i, Newborn(old(st).pid)), ReadyQ, i)
    {
      InitQueue(WaitQ(i));
      FillIn(pcb[i], lastPid);
      PushTask(ReadyQ, pcb[i]);
    }

    method NextPid()
      requires Mirrors()
      modifies this
      ensures Mirrors() && st == old(st).(pid := old(st).pid + 1) && lastPid == st.pid && current == old(current)
    {
      lastPid := lastPid + 1;
      st := st.(pid := st.pid + 1);
      WordsWritten();
    }

    // --------------------------------------------------------------- mutual exclusion

    method WriteLock(l: nat, held: bool)
      requires Mirrors() && l < locked.Length
      modifies this, locked
      ensures Mirrors() && st == old(st).(lock := old(st).lock[l := held]) && current == old(current)
      ensures lastPid == old(lastPid)
    {
      locked[l] := held;
      st := st.(lock := st.lock[l := held]);
      WordsWritten();
    }

    /** The inner loop of do_mutex_lock_release. */
    method WipeSlots(item: Pcb, l: nat)
      requires Mirrors() && item.id < |pcb| && item == pcb[item.id] && |st.task[item.id].slots| == LOCK_MAX_NUM
      modifies Repr()
      ensures Mirrors()
      ensures st == WithTask(old(st), item.id, old(st).task[item.id].(slots := Wiped(old(st).task[item.id].slots, l)))
    {
      assert TaskOk(item.id);
      var slots := item.slots;
      ghost var was := slots;
      var i := 0;
      while slots[i] != Some(l)
        invariant 0 <= i < LOCK_MAX_NUM && |slots| == LOCK_MAX_NUM && slots[0] == was[0]
        invariant i > 0 ==> was[0] != Some(l)
        invariant forall k :: 0 < k <= i ==> slots[k] == None
        invariant i == 0 ==> slots == was
        decreases LOCK_MAX_NUM - i
      {
        i := i + 1;
        if i >= LOCK_MAX_NUM {
          break;
        }
        slots := slots[i := None];
      }
      assert slots == Wiped(was, l);
      WriteSlots(item, slots);
    }

    /** The k-th task of a queue, or null after the last one. */
    ghost predicate PointsTo(x: Pcb?, ids: seq<nat>, k: nat)
      reads x
    {
      k <= |ids| && (x == null <==> k == |ids|) && (x != null ==> ids[k] < |pcb| && x == pcb[ids[k]] && x.id == ids[k])
    }

    lemma HeadPointsTo(q: QueueId)
      requires Mirrors() && q in queues
      ensures PointsTo(queues[q].head, Q(st, q), 0)
    {
      assert QueueOk(q) && ListOk(q);
      if Q(st, q) != [] { NodeAt(q, 0); }
    }

    /** One turn of the outer loop of do_mutex_lock_release. */
    method WipeOne(l: nat, head: Pcb, ghost s0: State, ghost k: nat) returns (next: Pcb?)
      requires Mirrors() && Formed(s0) && LockQ(l) in queues && k < |Q(s0, LockQ(l))| && st == WipeFirst(s0, l, k)
      requires PointsTo(head, Q(s0, LockQ(l)), k)
      modifies Repr()
      ensures Mirrors() && st == WipeFirst(s0, l, k + 1) && PointsTo(next, Q(s0, LockQ(l)), k + 1)
    {
      WipeStep(s0, l, k);
      WipeSlots(head, l);
      assert Q(st, LockQ(l)) == Q(s0, LockQ(l));
      NodeAt(LockQ(l), k);
      if k + 1 < |Q(s0, LockQ(l))| { NodeAt(LockQ(l), k + 1); }
      next := head.next;
    }

    method WipeAll(l: nat)
      requires Mirrors() && Formed(st) && l < |st.lock|
      modifies Repr()
      ensures Mirrors() && st == WipeWaiters(old(st), l)
    {
      ghost var s0, ids := st, Q(st, LockQ(l));
      ghost var k := 0;
      WipeDone(s0, l);
      HeadPointsTo(LockQ(l));
      var head := queues[LockQ(l)].head;
      while head != null
        invariant Mirrors() && k <= |ids| && st == WipeFirst(s0, l, k) && PointsTo(head, ids, k)
        decreases |ids| - k
      {
        head := WipeOne(l, head, s0, k);
        k := k + 1;
      }
    }

    /** do_mutex_lock_release */
    method ReleaseLock(l: nat)
      requires Mirrors() && Formed(st) && l < |st.lock|
      modifies Repr()
      ensures Mirrors() && st == Release(old(st), l)
    {
      if locked[l] {
        UnlockedFormed(st, l);
        WriteLock(l, false);
        WipeAll(l);
        DoUnblockAll(LockQ(l));
      }
    }

    // --------------------------------------------------------------- leaving

    /** One turn of the loop of do_exit and do_kill over a task's lock table. */
    method ReleaseSlot(item: Pcb, i: nat)
      requires Mirrors() && Formed(st) && item.id < |pcb| && item == pcb[item.id] && i < LOCK_MAX_NUM
      modifies Repr()
      ensures Mirrors() && Formed(st) && ReleaseSlots(st, item.id, i + 1) == ReleaseSlots(old(st), item.id, i)
    {
      assert TaskOk(item.id) && SlotsOk(st.task[item.id].slots, |st.lock|);
      ReleaseSlotsStep(st, item.id, i);
      if item.slots[i].Some? {
        ReleaseLock(item.slots[i].value);
      }
    }

    method ReleaseHeld(item: Pcb)
      requires Mirrors() && Formed(st) && item.id < |pcb| && item == pcb[item.id]
      modifies Repr()
      ensures Mirrors() && st == ReleaseSlots(old(st), item.id)
    {
      var i := 0;
      while i < LOCK_MAX_NUM
        invariant 0 <= i <= LOCK_MAX_NUM && Mirrors() && Formed(st)
        invariant ReleaseSlots(st, item.id, i) == ReleaseSlots(old(st), item.id)
      {
        ReleaseSlot(item, i);
        i := i + 1;
      }
    }

    /** do_exit */
    method DoExit(readings: seq<nat>, ghost j: nat) returns (ghost c: Clock)
      requires Mirrors() && Placement(st) && Allowed(st, Exit) && Schedulable(Act(st, Exit), readings, j)
      modifies Repr()
      ensures Mirrors() && Next(old(st), Exit, c, st)
      ensures Yields(old(st), Exit) ==> Taken(c, readings)
    {
      ExitInOrder(st);
      CurrentTask();
      ReleaseHeld(current);
      CurrentTask();
      ClearWaitingQueue(WaitQ(current.id));
      CurrentTask();
      WriteStatus(current, Exited);
      c := Scheduler(readings, j);
      YieldNext(old(st), Exit, c);
    }

    /** The search of do_waitpid and do_kill for a process id. */
    method FindTask(n: nat) returns (i: nat)
      requires Mirrors() && |pcb| == NUM_MAX_TASK + 1
      ensures Mirrors() && i == FindPid(st.task, n) && (i < NUM_MAX_TASK ==> pcb[i].status == st.task[i].status)
    {
      i := 0;
      assert TaskOk(0);
      while pcb[i].pid != n
        invariant Mirrors() && i < NUM_MAX_TASK && pcb[i].pid == st.task[i].pid && pcb[i].status == st.task[i].status
        invariant FindPid(st.task, n) == FindPid(st.task, n, i)
        decreases NUM_MAX_TASK - i
      {
        i := i + 1;
        if i >= NUM_MAX_TASK {
          return;
        }
        assert TaskOk(i);
      }
    }

    /** do_waitpid up to its do_scheduler */
    method WaitPass(n: nat) returns (blocked: bool)
      requires Mirrors() && Placement(st) && st.current < NUM_MAX_TASK && st.task[st.current].status == Running
      modifies Repr()
      ensures Mirrors() && st == WaitForPid(old(st), n)
      ensures var i := FindPid(old(st).task, n); blocked <==> i < NUM_MAX_TASK && old(st).task[i].status != Exited
    {
      WaitParks(st, n);
      var i := FindTask(n);
      blocked := i < NUM_MAX_TASK && pcb[i].status != Exited;
      if blocked {
        ParkCurrent(WaitQ(i), Blocked);
      }
    }

    /** do_waitpid */
    method DoWaitPid(n: nat, readings: seq<nat>, ghost j: nat) returns (ghost c: Clock)
      requires Mirrors() && Placement(st) && Allowed(st, WaitPid(n))
      requires Yields(st, WaitPid(n)) ==> Schedulable(Act(st, WaitPid(n)), readings, j)
      modifies Repr()
      ensures Mirrors() && Next(old(st), WaitPid(n), c, st)
      ensures Yields(old(st), WaitPid(n)) ==> Taken(c, readings)
    {
      c := Clock(0, 0);
      var blocked := WaitPass(n);
      if blocked {
        c := Scheduler(readings, j);
        YieldNext(old(st), WaitPid(n), c);
      } else {
        ReturnNext(old(st), WaitPid(n), c);
      }
    }

    /** check_in_queue */
    method CheckInQueue(q: QueueId, item: Pcb) returns (found: bool)
      requires Mirrors() && q in queues && item.id < |pcb| && item == pcb[item.id]
      ensures Mirrors() && (found <==> item.id in Q(st, q))
    {
      ghost var ids := Q(st, q);
      ghost var k := 0;
      assert QueueOk(q) && ListOk(q);
      if ids != [] { NodeAt(q, 0); }
      var node := queues[q].head;
      while node != null
        invariant Mirrors() && 0 <= k <= |ids|
        invariant node == null <==> k == |ids|
        invariant node != null ==> ids[k] < |pcb| && node == pcb[ids[k]] && node.id == ids[k]
        invariant item.id !in ids[..k]
        decreases |ids| - k
      {
        if node == item {
          return true;
        }
        NodeAt(q, k);
        node := node.next;
        k := k + 1;
        if k < |ids| { NodeAt(q, k); }
      }
      assert ids[..k] == ids;
      return false;
    }

    /** One turn of the loop of do_kill over the registered lock queues. */
    method LeaveLockQueue(item: Pcb, k: nat)
      requires Mirrors() && Formed(st) && item.id < NUM_MAX_TASK && item == pcb[item.id] && k < MAX_LOCK_NUM_TOTAL
      modifies Repr()
      ensures Mirrors() && Formed(st) && LeaveLocks(st, item.id, k + 1) == LeaveLocks(old(st), item.id, k)
    {
      LeaveStep(st, item.id, k);
      var found := CheckInQueue(LockQ(k), item);
      if found {
        PulledAt(st, LockQ(k), item.id);
        RemoveTask(LockQ(k), item, IndexOf(Q(st, LockQ(k)), item.id));
      }
    }

    method LeaveLockQueues(item: Pcb)
      requires Mirrors() && Formed(st) && item.id < NUM_MAX_TASK && item == pcb[item.id]
      modifies Repr()
      ensures Mirrors() && st == LeaveLocks(old(st), item.id)
    {
      var k := 0;
      while k < MAX_LOCK_NUM_TOTAL
        invariant 0 <= k <= MAX_LOCK_NUM_TOTAL && Mirrors() && Formed(st)
        invariant LeaveLocks(st, item.id, k) == LeaveLocks(old(st), item.id)
      {
        LeaveLockQueue(item, k);
        k := k + 1;
      }
    }

    /** The part of do_kill that unlinks its target. */
    method DetachTask(item: Pcb)
      requires Mirrors() && Formed(st) && Fitting(st) && item.id < NUM_MAX_TASK && item == pcb[item.id]
      modifies Repr()
      ensures Mirrors() && st == Detach(old(st), item.id)
    {
      assert TaskOk(item.id);
      DetachCases(st, item.id);
      if item.status == Ready {
        TakeOut(ReadyQ, item);
      } else if item.status == Blocked {
        LeaveLockQueues(item);
      } else if item.status == Sleeping {
        TakeOut(SleepQ, item);
      } else if item.status == Created {
        TakeOut(ReadyQ, item);
      }
    }

    method TakeOut(q: QueueId, item: Pcb)
      requires Mirrors() && Formed(st) && item.id < NUM_MAX_TASK && item == pcb[item.id] && item.id in Q(st, q)
      modifies Repr()
      ensures Mirrors() && st == Pull(old(st), q, IndexOf(Q(old(st), q), item.id))
    {
      PulledAt(st, q, item.id);
      RemoveTask(q, item, IndexOf(Q(st, q), item.id));
    }

    /** The body of do_kill once its target is found. */
    method Finish(item: Pcb)
      requires Mirrors() && Formed(st) && Fitting(st) && item.id < NUM_MAX_TASK && item == pcb[item.id]
      modifies Repr()
      ensures Mirrors()
      ensures st == WakeAll(ReleaseSlots(SetStatus(Detach(old(st), item.id), item.id, Exited), item.id), WaitQ(item.id))
    {
      DetachTask(item);
      WriteStatus(item, Exited);
      assert st == SetStatus(Detach(old(st), item.id), item.id, Exited);
      ReleaseHeld(item);
      ClearWaitingQueue(WaitQ(item.id));
    }

    /** do_kill up to its do_scheduler, which it reaches if it killed its caller */
    method KillPass(n: nat) returns (self: bool)
      requires Mirrors() && Placement(st)
      modifies Repr()
      ensures Mirrors() && st == KillTask(old(st), n)
      ensures self <==> FindPid(old(st).task, n) < NUM_MAX_TASK && old(st).task[old(st).current].pid == n
    {
      KillSparesCurrent(st, n);
      var i := FindTask(n);
      if i == NUM_MAX_TASK {
        return false;
      }
      if pcb[i].status != Exited {
        Finish(pcb[i]);
      }
      CurrentTask();
      self := current.pid == n;
    }

    /** do_kill, for a target it reaches */
    method DoKill(n: nat, readings: seq<nat>, ghost j: nat) returns (ghost c: Clock)
      requires Mirrors() && Placement(st) && Allowed(st, Kill(n)) && KillReaches(st, n)
      requires Yields(st, Kill(n)) ==> Schedulable(Act(st, Kill(n)), readings, j)
      modifies Repr()
      ensures Mirrors() && Next(old(st), Kill(n), c, st)
      ensures Yields(old(st), Kill(n)) ==> Taken(c, readings)
    {
      c := Clock(0, 0);
      var self := KillPass(n);
      if self {
        c := Scheduler(readings, j);
        YieldNext(old(st), Kill(n), c);
      } else {
        ReturnNext(old(st), Kill(n), c);
      }
    }

    // --------------------------------------------------------------- synchronisation calls

    /** do_mutex_lock_acquire from its loop test to the next do_scheduler or to its return. */
    method AcquirePass(l: nat) returns (blocked: bool)
      requires Mirrors() && Placement(st) && st.current < NUM_MAX_TASK && st.task[st.current].status == Running
      requires l < |st.lock|
      modifies Repr()
      ensures Mirrors() && st == Acquire(old(st), l) && blocked == old(st).lock[l]
    {
      AcquireInOrder(st, l);
      CurrentTask();
      blocked := locked[l];
      if blocked {
        WriteResume(current, Acquiring(l));
        ParkCurrent(LockQ(l), Blocked);
      } else {
        WriteResume(current, ToUser);
        WriteLock(l, true);
        RecordLock(l);
      }
    }

    /** The last loop of do_mutex_lock_acquire: note the lock in the first free slot. */
    method RecordLock(l: nat)
      requires Mirrors()
      modifies Repr()
      ensures old(st).current < |old(st).task|
      ensures Mirrors()
      ensures st == WithTask(old(st), old(st).current,
        old(st).task[old(st).current].(slots := Record(old(st).task[old(st).current].slots, l)))
    {
      CurrentTask();
      var slots := current.slots;
      ghost var was := slots;
      var i := 0;
      while i < |slots| && slots[i].Some?
        invariant 0 <= i <= |slots| && slots == was
        invariant Record(was, l) == Record(was, l, i)
      {
        i := i + 1;
      }
      if i < |slots| {
        slots := slots[i := Some(l)];
      }
      WriteSlots(current, slots);
    }

    /** do_mutex_lock_acquire, first pass */
    method DoLock(l: nat, readings: seq<nat>, ghost j: nat) returns (ghost c: Clock)
      requires Mirrors() && Placement(st) && Allowed(st, Lock(l))
      requires Yields(st, Lock(l)) ==> Schedulable(Act(st, Lock(l)), readings, j)
      modifies Repr()
      ensures Mirrors() && Next(old(st), Lock(l), c, st)
      ensures Yields(old(st), Lock(l)) ==> Taken(c, readings)
    {
      c := Clock(0, 0);
      var blocked := AcquirePass(l);
      if blocked {
        c := Scheduler(readings, j);
        YieldNext(old(st), Lock(l), c);
      } else {
        ReturnNext(old(st), Lock(l), c);
      }
    }

    /** do_mutex_lock_acquire, back from do_scheduler; also the end of do_condition_wait */
    method DoRetry(readings: seq<nat>, ghost j: nat) returns (ghost c: Clock)
      requires Mirrors() && Placement(st) && Allowed(st, Retry)
      requires Yields(st, Retry) ==> Schedulable(Act(st, Retry), readings, j)
      modifies Repr()
      ensures Mirrors() && Next(old(st), Retry, c, st)
      ensures Yields(old(st), Retry) ==> Taken(c, readings)
    {
      c := Clock(0, 0);
      CurrentTask();
      var blocked := AcquirePass(current.resume.lock);
      if blocked {
        c := Scheduler(readings, j);
        YieldNext(old(st), Retry, c);
      } else {
        ReturnNext(old(st), Retry, c);
      }
    }

    /** do_mutex_lock_release as a system call */
    method DoUnlock(l: nat, ghost c: Clock)
      requires Mirrors() && Placement(st) && Allowed(st, Unlock(l))
      modifies Repr()
      ensures Mirrors() && Next(old(st), Unlock(l), c, st)
    {
      ReturnNext(st, Unlock(l), c);
      ReleaseLock(l);
    }

    /** do_condition_wait up to its re-acquisition, which is a DoRetry */
    method DoCondWait(l: nat, x: nat, readings: seq<nat>, ghost j: nat) returns (ghost c: Clock)
      requires Mirrors() && Placement(st) && Allowed(st, CondWait(l, x))
      requires Schedulable(Act(st, CondWait(l, x)), readings, j)
      modifies Repr()
      ensures Mirrors() && Next(old(st), CondWait(l, x), c, st)
      ensures Yields(old(st), CondWait(l, x)) ==> Taken(c, readings)
    {
      CondWaitInOrder(st, l, x);
      CurrentTask();
      WriteResume(current, Acquiring(l));
      CurrentTask();
      PushTask(CondQ(x), current);
      CurrentTask();
      WriteStatus(current, Blocked);
      ReleaseLock(l);
      c := Scheduler(readings, j);
      YieldNext(old(st), CondWait(l, x), c);
    }

    /** do_condition_signal */
    method DoSignal(x: nat, ghost c: Clock)
      requires Mirrors() && Placement(st) && Allowed(st, Signal(x))
      modifies Repr()
      ensures Mirrors() && Next(old(st), Signal(x), c, st)
    {
      ReturnNext(st, Signal(x), c);
      EmptyMeans(CondQ(x));
      if !IsEmpty(CondQ(x)) {
        WakeHead(CondQ(x));
      }
    }

    /** do_condition_broadcast */
    method DoBroadcast(x: nat, ghost c: Clock)
      requires Mirrors() && Placement(st) && Allowed(st, Broadcast(x))
      modifies Repr()
      ensures Mirrors() && Next(old(st), Broadcast(x), c, st)
    {
      ReturnNext(st, Broadcast(x), c);
      ClearWaitingQueue(CondQ(x));
    }

    method WriteSem(x: nat, value: int)
      requires Mirrors() && x < semValue.Length
      modifies this, semValue
      ensures Mirrors() && st == old(st).(sem := old(st).sem[x := value])
    {
      semValue[x] := value;
      st := st.(sem := st.sem[x := value]);
      WordsWritten();
    }

    /** do_semaphore_up */
    method DoUp(x: nat, ghost c: Clock)
      requires Mirrors() && Placement(st) && Allowed(st, Up(x))
      modifies Repr()
      ensures Mirrors() && Next(old(st), Up(x), c, st)
    {
      ReturnNext(st, Up(x), c);
      UpPass(x);
    }

    method UpPass(x: nat)
      requires Mirrors() && Placement(st) && x < |st.sem|
      modifies Repr()
      ensures Mirrors() && st == SemUp(old(st), x)
    {
      EmptyMeans(SemQ(x));
      if !IsEmpty(SemQ(x)) {
        WakeHead(SemQ(x));
      } else {
        WriteSem(x, semValue[x] + 1);
      }
    }

    /** do_semaphore_down; a task woken by an up returns without touching the value */
    method DoDown(x: nat, readings: seq<nat>, ghost j: nat) returns (ghost c: Clock)
      requires Mirrors() && Placement(st) && Allowed(st, Down(x))
      requires Yields(st, Down(x)) ==> Schedulable(Act(st, Down(x)), readings, j)
      modifies Repr()
      ensures Mirrors() && Next(old(st), Down(x), c, st)
      ensures Yields(old(st), Down(x)) ==> Taken(c, readings)
    {
      c := Clock(0, 0);
      DownInOrder(st, x);
      if semValue[x] == 0 {
        ParkCurrent(SemQ(x), Blocked);
        c := Scheduler(readings, j);
        YieldNext(old(st), Down(x), c);
      } else {
        ReturnNext(st, Down(x), c);
        WriteSem(x, semValue[x] - 1);
      }
    }

    method WriteBarrier(b: nat, word: Barrier)
      requires Mirrors() && b < barriers.Length
      modifies this, barriers
      ensures Mirrors() && st == old(st).(barrier := old(st).barrier[b := word])
    {
      barriers[b] := word;
      st := st.(barrier := st.barrier[b := word]);
      WordsWritten();
    }

    /** do_barrier_wait up to its do_scheduler */
    method ArrivePass(b: nat) returns (blocked: bool)
      requires Mirrors() && Placement(st) && st.current < NUM_MAX_TASK && st.task[st.current].status == Running
      requires b < |st.barrier|
      modifies Repr()
      ensures Mirrors() && st == BarrierWait(old(st), b) && blocked == (old(st).barrier[b].missing != 1)
    {
      ArriveInOrder(st, b);
      var word := barriers[b];
      if word.missing == 1 {
        ClearWaitingQueue(BarrierQ(b));
        WriteBarrier(b, word.(missing := word.goal));
        blocked := false;
      } else {
        WriteBarrier(b, word.(missing := word.missing - 1));
        ParkCurrent(BarrierQ(b), Blocked);
        blocked := true;
      }
    }

    /** do_barrier_wait */
    method DoArrive(b: nat, readings: seq<nat>, ghost j: nat) returns (ghost c: Clock)
      requires Mirrors() && Placement(st) && Allowed(st, Arrive(b))
      requires Yields(st, Arrive(b)) ==> Schedulable(Act(st, Arrive(b)), readings, j)
      modifies Repr()
      ensures Mirrors() && Next(old(st), Arrive(b), c, st)
      ensures Yields(old(st), Arrive(b)) ==> Taken(c, readings)
    {
      c := Clock(0, 0);
      var blocked := ArrivePass(b);
      if blocked {
        c := Scheduler(readings, j);
        YieldNext(old(st), Arrive(b), c);
      } else {
        ReturnNext(old(st), Arrive(b), c);
      }
    }

    /** do_mutex_lock_init of a lock nobody waits for */
    method DoLockInit(l: nat, ghost c: Clock)
      requires Mirrors() && Placement(st) && Allowed(st, Init(LockObject(l)))
      modifies Repr()
      ensures Mirrors() && Next(old(st), Init(LockObject(l)), c, st)
    {
      InitReturns(st, LockObject(l), c);
      WriteLock(l, false);
      InitQueue(LockQ(l));
    }

    /** do_semaphore_init of a semaphore nobody waits for */
    method DoSemInit(x: nat, value: int, ghost c: Clock)
      requires Mirrors() && Placement(st) && Allowed(st, Init(SemObject(x, value)))
      modifies Repr()
      ensures Mirrors() && Next(old(st), Init(SemObject(x, value)), c, st)
    {
      InitReturns(st, SemObject(x, value), c);
      WriteSem(x, value);
      InitQueue(SemQ(x));
    }

    /** do_condition_init of a condition nobody waits for */
    method DoCondInit(x: nat, ghost c: Clock)
      requires Mirrors() && Placement(st) && Allowed(st, Init(CondObject(x)))
      modifies Repr()
      ensures Mirrors() && Next(old(st), Init(CondObject(x)), c, st)
    {
      InitReturns(st, CondObject(x), c);
      InitQueue(CondQ(x));
    }

    /** do_barrier_init of a barrier nobody waits at */
    method DoBarrierInit(b: nat, goal: int, ghost c: Clock)
      requires Mirrors() && Placement(st) && Allowed(st, Init(BarrierObject(b, goal)))
      modifies Repr()
      ensures Mirrors() && Next(old(st), Init(BarrierObject(b, goal)), c, st)
    {
      InitReturns(st, BarrierObject(b, goal), c);
      WriteBarrier(b, Barrier(goal, goal));
      InitQueue(BarrierQ(b));
    }
  }
}
