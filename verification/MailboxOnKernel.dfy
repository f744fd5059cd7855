/**
 The mailbox on the kernel.  Tasks run the mailbox code on two semaphores and a mutex of the
 kernel, and any other code beside it.  Every such run, whatever the scheduler does, is a run
 of the mailbox: a down or an acquisition takes effect when the kernel grants it.
 */
module MailboxOnKernel {
  import opened Basics
  import opened KernelModel
  import opened KernelSteps
  import opened Sync
  import Mutex
  import Mailbox

  /** The mutex and the two semaphores of a box: free slots and messages. */
  datatype Parts = Parts(lock: nat, free: nat, full: nat)

  // ----------------------------------------------------------------- what the kernel shows of a box

  /** The value of a semaphore and its queue. */
  datatype Gate = Gate(value: int, queue: seq<nat>)

  /** `acquiring` marks the tasks that have to try again for the mutex when they run. */
  datatype View = View(free: Gate, full: Gate, locked: bool, acquiring: seq<bool>)

  ghost predicate Has(k: State, m: Parts) {
    m.lock < |k.lock| && m.free < |k.sem| && m.full < |k.sem| && m.free != m.full
  }

  ghost function ViewOf(k: State, m: Parts): View
    requires Has(k, m)
  {
    View(
      Gate(k.sem[m.free], Q(k, SemQ(m.free))),
      Gate(k.sem[m.full], Q(k, SemQ(m.full))),
      k.lock[m.lock],
      seq(|k.task|, t requires 0 <= t < |k.task| => k.task[t].resume == Acquiring(m.lock)))
  }

  /** What a system call is for the box. */
  datatype Call = DownFree | DownFull | UpFree | UpFull | TakeLock | GiveLock | Elsewhere

  ghost function CallOf(k: State, e: Event, m: Parts): Call
    requires k.current < |k.task|
  {
    match e
    case Down(x) => if x == m.free then DownFree else if x == m.full then DownFull else Elsewhere
    case Up(x) => if x == m.free then UpFree else if x == m.full then UpFull else Elsewhere
    case Lock(l) => if l == m.lock then TakeLock else Elsewhere
    case Retry => if k.task[k.current].resume == Acquiring(m.lock) then TakeLock else Elsewhere
    case Unlock(l) => if l == m.lock then GiveLock else Elsewhere
    case _ => Elsewhere
  }

  /** The event changes the semaphore only by do_semaphore_down and do_semaphore_up. */
  predicate KeepsGate(e: Event, x: nat) {
    Proper(e, SemQ(x)) && !(e.Init? && QueueOf(e.target) == SemQ(x))
  }

  /** The event changes the mutex only by acquisition and release. */
  predicate KeepsLock(e: Event, l: nat) {
    !(e.CondWait? && e.lock == l) && !(e.Init? && QueueOf(e.target) == LockQ(l))
  }

  /** Nobody touches the parts by other calls, and nobody exits or is killed. */
  predicate Keeps(e: Event, m: Parts) {
    !e.Exit? && !e.Kill? && KeepsGate(e, m.free) && KeepsGate(e, m.full) && KeepsLock(e, m.lock)
  }

  function AfterDown(g: Gate, t: nat): Gate {
    if g.value == 0 then g.(queue := g.queue + [t]) else g.(value := g.value - 1)
  }

  function AfterUp(g: Gate): Gate {
    if g.queue != [] then g.(queue := g.queue[1..]) else g.(value := g.value + 1)
  }

  /** The box's objects after task t made the call. */
  function After(v: View, t: nat, call: Call): View
    requires t < |v.acquiring|
  {
    match call
    case DownFree => v.(free := AfterDown(v.free, t))
    case DownFull => v.(full := AfterDown(v.full, t))
    case UpFree => v.(free := AfterUp(v.free))
    case UpFull => v.(full := AfterUp(v.full))
    case TakeLock => if v.locked then v.(acquiring := v.acquiring[t := true])
      else v.(locked := true, acquiring := v.acquiring[t := false])
    case GiveLock => v.(locked := false)
    case Elsewhere => v
  }

  /** The same, where tasks outside any call on the box may stop having to try again. */
  ghost predicate Becomes(v: View, t: nat, call: Call, r: View)
    requires t < |v.acquiring|
  {
    var a := After(v, t, call);
    && r == a.(acquiring := r.acquiring) && |r.acquiring| == |a.acquiring|
    && forall u :: 0 <= u < |r.acquiring| && r.acquiring[u] ==> a.acquiring[u]
  }

  // ----------------------------------------------------------------- a kernel step, seen from the box

  /** What the task has left to do in the kernel after a call. */
  ghost function ResumeAfter(s: State, e: Event, t: nat): Resume
    requires |s.task| == NUM_MAX_TASK + 1 && Allowed(s, e) && t < |s.task|
  {
    match e
    case Lock(l) => if t != s.current then s.task[t].resume else if s.lock[l] then Acquiring(l) else ToUser
    case Retry =>
      if t == s.current && !s.lock[s.task[t].resume.lock] then ToUser else s.task[t].resume
    case CondWait(l, _) => if t == s.current then Acquiring(l) else s.task[t].resume
    case Spawn => if t == FreeEntry(s.task) && t < NUM_MAX_TASK then ToUser else s.task[t].resume
    case _ => s.task[t].resume
  }

  lemma WokenResume(s: State, r: State, t: nat)
    requires Woken(s, r) && t < |s.task|
    ensures t < |r.task| && r.task[t].resume == s.task[t].resume
  {
    assert SameIdentity(s.task[t], r.task[t]);
  }

  lemma AcquireResume(s: State, l: nat, t: nat)
    requires Placement(s) && s.current < NUM_MAX_TASK && s.task[s.current].status == Running && l < |s.lock|
    requires t < |s.task|
    ensures Acquire(s, l).task[t].resume ==
      if t != s.current then s.task[t].resume else if s.lock[l] then Acquiring(l) else ToUser
  {
    OnlyCurrentRuns(s);
  }

  lemma WaitResume(s: State, l: nat, c: nat, t: nat)
    requires Placement(s) && s.current < NUM_MAX_TASK && s.task[s.current].status == Running && l < |s.lock|
    requires CondQ(c) in s.queue
    requires t < |s.task|
    ensures WaitOnCondition(s, l, c).task[t].resume == if t == s.current then Acquiring(l) else s.task[t].resume
  {
    OnlyCurrentRuns(s);
    var p := Park(SetResume(s, Acquiring(l)), s.current, CondQ(c), Blocked);
    WokenResume(p, Release(p, l), t);
  }

  lemma ArriveResume(s: State, b: nat, t: nat)
    requires Placement(s) && s.current < NUM_MAX_TASK && s.task[s.current].status == Running && b < |s.barrier|
    requires t < |s.task|
    ensures BarrierWait(s, b).task[t].resume == s.task[t].resume
  {
    OnlyCurrentRuns(s);
    WokenResume(s, WakeAll(s, BarrierQ(b)), t);
  }

  lemma SemResume(s: State, x: nat, t: nat)
    requires Placement(s) && s.current < NUM_MAX_TASK && s.task[s.current].status == Running && x < |s.sem|
    requires t < |s.task|
    ensures SemUp(s, x).task[t].resume == s.task[t].resume && SemDown(s, x).task[t].resume == s.task[t].resume
  {
    OnlyCurrentRuns(s);
    WokenResume(s, WakeFirst(s, SemQ(x)), t);
  }

  lemma SpawnResume(s: State, t: nat)
    requires Placement(s) && t < |s.task|
    ensures SpawnTask(s).task[t].resume == if t == FreeEntry(s.task) && t < NUM_MAX_TASK then ToUser
      else s.task[t].resume
  {
  }

  lemma ParkResume(s: State, e: Event, t: nat)
    requires Placement(s) && Allowed(s, e) && (e.SleepFor? || e.BlockOn? || e.WaitPid?) && t < |s.task|
    ensures Act(s, e).task[t].resume == s.task[t].resume
  {
    OnlyCurrentRuns(s);
  }

  lemma ActResume(s: State, e: Event, t: nat)
    requires Placement(s) && Allowed(s, e) && !e.Exit? && !e.Kill? && t < |s.task|
    ensures Act(s, e).task[t].resume == ResumeAfter(s, e, t)
  {
    match e
    case Lock(l) => AcquireResume(s, l, t);
    case Retry => AcquireResume(s, s.task[s.current].resume.lock, t);
    case CondWait(l, c) => WaitResume(s, l, c, t);
    case Spawn => SpawnResume(s, t);
    case Up(x) => SemResume(s, x, t);
    case Down(x) => SemResume(s, x, t);
    case Arrive(b) => ArriveResume(s, b, t);
    case WakeOne(q) => WokenResume(s, UnblockOne(s, q), t);
    case WakeEvery(q) => WokenResume(s, UnblockAll(s, q), t);
    case Unlock(l) => WokenResume(s, Release(s, l), t);
    case Signal(c) => WokenResume(s, WakeFirst(s, CondQ(c)), t);
    case Broadcast(c) => WokenResume(s, WakeAll(s, CondQ(c)), t);
    case Init(o) => ResetKeeps(s, o);
    case Timer =>
    case _ => ParkResume(s, e, t);
  }

  ghost function GateOf(k: State, x: nat): Gate
    requires x < |k.sem|
  {
    Gate(k.sem[x], Q(k, SemQ(x)))
  }

  ghost function GateAfter(g: Gate, t: nat, e: Event, x: nat): Gate {
    if e == Down(x) then AfterDown(g, t) else if e == Up(x) then AfterUp(g) else g
  }

  lemma GateIs(s: State, e: Event, x: nat, r: State)
    requires Allowed(s, e) && x < |s.sem| && KeepsGate(e, x)
    requires r.sem == Sems(s, e) && Serves(s, e, SemQ(x), r)
    ensures |r.sem| == |s.sem| && GateOf(r, x) == GateAfter(GateOf(s, x), s.current, e, x)
  {
    var q := Q(s, SemQ(x));
    EmptyEnds(q);
    EmptyEnds(Q(r, SemQ(x)));
    if e == Up(x) && q != [] {
      assert q == q[..1] + Q(r, SemQ(x));
    }
  }

  lemma GateStep(k: State, e: Event, c: Clock, x: nat)
    requires Placement(k) && KernelSteps.Enabled(k, e, c) && x < |k.sem| && KeepsGate(e, x)
    ensures var r := KernelSteps.Step(k, e, c);
      |r.sem| == |k.sem| && GateOf(r, x) == GateAfter(GateOf(k, x), k.current, e, x)
  {
    ActWords(k, e);
    ServeStep(k, e, SemQ(x));
    StepAfterAct(k, e, c, SemQ(x));
    GateIs(k, e, x, KernelSteps.Step(k, e, c));
  }

  ghost function LockAfter(k: State, e: Event, m: Parts): bool
    requires k.current < |k.task| && m.lock < |k.lock|
  {
    match CallOf(k, e, m)
    case TakeLock => true
    case GiveLock => false
    case _ => k.lock[m.lock]
  }

  lemma LockIs(s: State, e: Event, m: Parts)
    requires Allowed(s, e) && m.lock < |s.lock| && Keeps(e, m)
    ensures |Mutex.Words(s, e)| == |s.lock| && Mutex.Words(s, e)[m.lock] == LockAfter(s, e, m)
  {
  }

  lemma LockStep(k: State, e: Event, c: Clock, m: Parts)
    requires Placement(k) && KernelSteps.Enabled(k, e, c) && m.lock < |k.lock| && Keeps(e, m)
    ensures |KernelSteps.Step(k, e, c).lock| == |k.lock| && KernelSteps.Step(k, e, c).lock[m.lock] == LockAfter(k, e, m)
  {
    Mutex.LockWords(k, e);
    StepAfterAct(k, e, c, BlockQ);
    LockIs(k, e, m);
  }

  lemma ResumeStep(k: State, e: Event, c: Clock, t: nat)
    requires Placement(k) && KernelSteps.Enabled(k, e, c) && !e.Exit? && !e.Kill? && t < |k.task|
    ensures |KernelSteps.Step(k, e, c).task| == |k.task|
    ensures KernelSteps.Step(k, e, c).task[t].resume == ResumeAfter(k, e, t)
  {
    ActResume(k, e, t);
    StepAfterAct(k, e, c, BlockQ);
  }

  /** Before the call the task had to try again, or it tries now and finds the mutex taken. */
  ghost predicate Wants(k: State, e: Event, m: Parts, t: nat)
    requires k.current < |k.task| && m.lock < |k.lock| && t < |k.task|
  {
    if t == k.current && CallOf(k, e, m) == TakeLock then k.lock[m.lock] else k.task[t].resume == Acquiring(m.lock)
  }

  lemma WantsIs(s: State, e: Event, m: Parts, t: nat)
    requires |s.task| == NUM_MAX_TASK + 1 && Allowed(s, e) && m.lock < |s.lock| && Keeps(e, m) && t < |s.task|
    requires ResumeAfter(s, e, t) == Acquiring(m.lock)
    ensures Wants(s, e, m, t)
  {
  }

  lemma ViewIs(k: State, e: Event, m: Parts, r: State)
    requires k.current < |k.task| == |r.task| && Has(k, m) && |r.sem| == |k.sem| && |r.lock| == |k.lock|
    requires GateOf(r, m.free) == GateAfter(GateOf(k, m.free), k.current, e, m.free)
    requires GateOf(r, m.full) == GateAfter(GateOf(k, m.full), k.current, e, m.full)
    requires r.lock[m.lock] == LockAfter(k, e, m)
    requires forall t :: 0 <= t < |r.task| && r.task[t].resume == Acquiring(m.lock) ==> Wants(k, e, m, t)
    ensures Has(r, m) && |ViewOf(k, m).acquiring| == |k.task|
    ensures Becomes(ViewOf(k, m), k.current, CallOf(k, e, m), ViewOf(r, m))
  {
    var v, w := ViewOf(k, m), ViewOf(r, m);
    forall u | 0 <= u < |w.acquiring| && w.acquiring[u] ensures After(v, k.current, CallOf(k, e, m)).acquiring[u] {
      assert Wants(k, e, m, u);
    }
  }

  lemma WantsStep(k: State, e: Event, c: Clock, m: Parts)
    requires Placement(k) && KernelSteps.Enabled(k, e, c) && m.lock < |k.lock| && Keeps(e, m)
    ensures var r := KernelSteps.Step(k, e, c);
      |r.task| == |k.task| && forall t :: 0 <= t < |r.task| && r.task[t].resume == Acquiring(m.lock) ==>
        Wants(k, e, m, t)
  {
    var r := KernelSteps.Step(k, e, c);
    forall t | 0 <= t < |r.task| && r.task[t].resume == Acquiring(m.lock) ensures Wants(k, e, m, t) {
      ResumeStep(k, e, c, t);
      WantsIs(k, e, m, t);
    }
  }

  /** Every system call changes the box's objects as its own call says. */
  lemma ViewStep(k: State, e: Event, c: Clock, m: Parts)
    requires Placement(k) && KernelSteps.Enabled(k, e, c) && Has(k, m) && Keeps(e, m)
    ensures Has(KernelSteps.Step(k, e, c), m) && |ViewOf(k, m).acquiring| == |k.task|
    ensures Becomes(ViewOf(k, m), k.current, CallOf(k, e, m), ViewOf(KernelSteps.Step(k, e, c), m))
  {
    GateStep(k, e, c, m.free);
    GateStep(k, e, c, m.full);
    LockStep(k, e, c, m);
    WantsStep(k, e, c, m);
    ViewIs(k, e, m, KernelSteps.Step(k, e, c));
  }

  // ----------------------------------------------------------------- the calls, seen from the mailbox

  predicate AtLock(p: Mailbox.Proc) {
    p.SendAcquire? || p.RecvAcquire?
  }

  /** The value is never negative, and nobody waits while it is positive. */
  predicate Sound(g: Gate) {
    g.value >= 0 && (g.value > 0 ==> g.queue == [])
  }

  /** The kernel's objects show the mailbox: values and lock agree, and the tasks that wait are where they wait. */
  ghost predicate Shown(v: View, b: Mailbox.Box) {
    && |v.acquiring| == |b.procs| && Sound(v.free) && Sound(v.full)
    && v.free.value == b.send && v.full.value == b.recv && (v.locked <==> b.owner.Some?)
    && (forall i :: i in v.free.queue ==> i < |b.procs| && b.procs[i].SendDown?)
    && (forall i :: i in v.full.queue ==> i < |b.procs| && b.procs[i].RecvDown?)
    && (forall i :: 0 <= i < |v.acquiring| && v.acquiring[i] ==> AtLock(b.procs[i]))
  }

  /** The task is where the mailbox code makes this call. */
  predicate Follows(b: Mailbox.Box, t: nat, call: Call) {
    && t < |b.procs|
    && match call
       case DownFree => b.procs[t].SendDown?
       case DownFull => b.procs[t].RecvDown?
       case UpFree => b.procs[t].RecvUp?
       case UpFull => b.procs[t].SendUp?
       case TakeLock => AtLock(b.procs[t])
       case GiveLock => b.procs[t].SendRelease? || b.procs[t].RecvRelease?
       case Elsewhere => true
  }

  /** The steps of the mailbox a call completes: the caller's own, and that of the task an up lets go. */
  function Completes(v: View, t: nat, call: Call): seq<Mailbox.Action> {
    match call
    case DownFree => if v.free.value == 0 then [] else [Mailbox.Proceed(t)]
    case DownFull => if v.full.value == 0 then [] else [Mailbox.Proceed(t)]
    case UpFree => [Mailbox.Proceed(t)] + if v.free.queue == [] then [] else [Mailbox.Proceed(v.free.queue[0])]
    case UpFull => [Mailbox.Proceed(t)] + if v.full.queue == [] then [] else [Mailbox.Proceed(v.full.queue[0])]
    case TakeLock => if v.locked then [] else [Mailbox.Proceed(t)]
    case GiveLock => [Mailbox.Proceed(t)]
    case Elsewhere => []
  }

  predicate AllEnabled(b: Mailbox.Box, acts: seq<Mailbox.Action>)
    decreases |acts|
  {
    acts == [] || (Mailbox.Enabled(b, acts[0]) && AllEnabled(Mailbox.Step(b, acts[0]), acts[1..]))
  }

  /** The mailbox after the steps; one it could not take would be skipped. */
  function Apply(b: Mailbox.Box, acts: seq<Mailbox.Action>): Mailbox.Box
    decreases |acts|
  {
    if acts == [] then b
    else if Mailbox.Enabled(b, acts[0]) then Apply(Mailbox.Step(b, acts[0]), acts[1..])
    else Apply(b, acts[1..])
  }

  lemma ApplyOne(b: Mailbox.Box, a: Mailbox.Action)
    requires Mailbox.Enabled(b, a)
    ensures AllEnabled(b, [a]) && Apply(b, [a]) == Mailbox.Step(b, a)
  {
  }

  lemma ApplyTwo(b: Mailbox.Box, a: Mailbox.Action, c: Mailbox.Action)
    requires Mailbox.Enabled(b, a) && Mailbox.Enabled(Mailbox.Step(b, a), c)
    ensures AllEnabled(b, [a] + [c]) && Apply(b, [a] + [c]) == Mailbox.Step(Mailbox.Step(b, a), c)
  {
    assert ([a] + [c])[1..] == [c];
    ApplyOne(Mailbox.Step(b, a), c);
  }

  /** Nobody is twice in a queue. */
  ghost predicate Distinct(ids: seq<nat>) {
    forall i, j :: 0 <= i < j < |ids| ==> ids[i] != ids[j]
  }

  ghost predicate Orderly(v: View, t: nat) {
    Distinct(v.free.queue) && Distinct(v.full.queue) && t !in v.free.queue && t !in v.full.queue
  }

  /** A call that completes nothing. */
  lemma WaitingKeeps(v: View, b: Mailbox.Box, t: nat, call: Call)
    requires Shown(v, b) && t < |b.procs| && Follows(b, t, call) && Completes(v, t, call) == []
    ensures Shown(After(v, t, call), b)
  {
  }

  /** A down, an acquisition or a release that completes. */
  lemma OwnStepKeeps(v: View, b: Mailbox.Box, t: nat, call: Call)
    requires Shown(v, b) && Mailbox.Safe(b) && Orderly(v, t) && Follows(b, t, call)
    requires Completes(v, t, call) == [Mailbox.Proceed(t)]
    ensures Mailbox.Enabled(b, Mailbox.Proceed(t)) && Shown(After(v, t, call), Mailbox.Step(b, Mailbox.Proceed(t)))
  {
    Mailbox.GoesUnlessWaiting(b, t);
  }

  /** The first waiter, which the up lets go. */
  function Granted(v: View, call: Call): nat
    requires (call == UpFree && v.free.queue != []) || (call == UpFull && v.full.queue != [])
  {
    if call == UpFree then v.free.queue[0] else v.full.queue[0]
  }

  lemma GrantedIs(v: View, b: Mailbox.Box, t: nat, call: Call)
    requires Shown(v, b) && Orderly(v, t)
    requires (call == UpFree && v.free.queue != []) || (call == UpFull && v.full.queue != [])
    ensures var w := Granted(v, call);
      w != t && w < |b.procs| && if call == UpFree then b.procs[w].SendDown? else b.procs[w].RecvDown?
  {
    if call == UpFree {
      assert v.free.queue[0] in v.free.queue;
    } else {
      assert v.full.queue[0] in v.full.queue;
    }
  }

  /** The token the up adds is there for the waiter. */
  lemma GrantEnabled(v: View, b: Mailbox.Box, t: nat, call: Call)
    requires Shown(v, b) && Mailbox.Safe(b) && Orderly(v, t) && Follows(b, t, call)
    requires (call == UpFree && v.free.queue != []) || (call == UpFull && v.full.queue != [])
    ensures Mailbox.Enabled(b, Mailbox.Proceed(t))
    ensures Mailbox.Enabled(Mailbox.Step(b, Mailbox.Proceed(t)), Mailbox.Proceed(Granted(v, call)))
  {
    Mailbox.GoesUnlessWaiting(b, t);
    GrantedIs(v, b, t, call);
    Mailbox.StepSafe(b, Mailbox.Proceed(t));
    Mailbox.GoesUnlessWaiting(Mailbox.Step(b, Mailbox.Proceed(t)), Granted(v, call));
  }

  /** The rest of a queue does not hold its head. */
  lemma TailWithoutHead(ids: seq<nat>)
    requires Distinct(ids) && ids != []
    ensures ids[0] !in ids[1..] && forall i :: i in ids[1..] ==> i in ids
  {
  }

  /** An up with a waiter: the caller goes on and the waiter gets what it waited for. */
  lemma GrantKeeps(v: View, b: Mailbox.Box, t: nat, call: Call)
    requires Shown(v, b) && Mailbox.Safe(b) && Orderly(v, t) && Follows(b, t, call)
    requires (call == UpFree && v.free.queue != []) || (call == UpFull && v.full.queue != [])
    requires Mailbox.Enabled(b, Mailbox.Proceed(t))
    requires Mailbox.Enabled(Mailbox.Step(b, Mailbox.Proceed(t)), Mailbox.Proceed(Granted(v, call)))
    ensures Shown(After(v, t, call),
      Mailbox.Step(Mailbox.Step(b, Mailbox.Proceed(t)), Mailbox.Proceed(Granted(v, call))))
  {
    GrantedIs(v, b, t, call);
    TailWithoutHead(if call == UpFree then v.free.queue else v.full.queue);
  }

  /** Every call completes only steps the mailbox can take, and the objects still show the mailbox. */
  lemma CallKeeps(v: View, b: Mailbox.Box, t: nat, call: Call)
    requires Shown(v, b) && Mailbox.Safe(b) && Orderly(v, t) && Follows(b, t, call)
    ensures AllEnabled(b, Completes(v, t, call)) && Shown(After(v, t, call), Apply(b, Completes(v, t, call)))
  {
    var acts := Completes(v, t, call);
    if acts == [] {
      WaitingKeeps(v, b, t, call);
    } else if (call == UpFree && v.free.queue != []) || (call == UpFull && v.full.queue != []) {
      GrantEnabled(v, b, t, call);
      GrantKeeps(v, b, t, call);
      ApplyTwo(b, Mailbox.Proceed(t), Mailbox.Proceed(Granted(v, call)));
    } else {
      assert acts == [Mailbox.Proceed(t)];
      OwnStepKeeps(v, b, t, call);
      ApplyOne(b, Mailbox.Proceed(t));
    }
  }

  /** Marks of tasks that need not try again may disappear. */
  lemma ShownWeaker(v: View, r: View, b: Mailbox.Box)
    requires Shown(v, b) && r == v.(acquiring := r.acquiring) && |r.acquiring| == |v.acquiring|
    requires forall u :: 0 <= u < |r.acquiring| && r.acquiring[u] ==> v.acquiring[u]
    ensures Shown(r, b)
  {
  }

  /** What a task does between its system calls. */
  predicate ByUser(b: Mailbox.Box, a: Mailbox.Action) {
    && a.task < |b.procs|
    && match a
       case BeginSend(t, msg) => b.procs[t] == Mailbox.Idle && |msg| == b.len
       case BeginRecv(t) => b.procs[t] == Mailbox.Idle
       case Proceed(t) => var p := b.procs[t]; p.SendPtr? || p.SendCopy? || p.RecvCopy? || p.RecvPtr?
  }

  lemma UserKeeps(v: View, b: Mailbox.Box, a: Mailbox.Action)
    requires Shown(v, b) && Mailbox.Safe(b) && Orderly(v, a.task) && ByUser(b, a)
    ensures AllEnabled(b, [a]) && Shown(v, Apply(b, [a]))
  {
    if a.Proceed? {
      Mailbox.GoesUnlessWaiting(b, a.task);
    }
    ApplyOne(b, a);
  }

  // ----------------------------------------------------------------- runs of both

  /** A system call with its scheduler call, or something the current task does outside the kernel. */
  datatype Move = Kernel(event: Event, clock: Clock) | User(action: Mailbox.Action)

  /** Tasks make the calls on the box where the mailbox code makes them; the rest is the kernel's doing. */
  ghost predicate Moves(k: State, b: Mailbox.Box, move: Move, m: Parts, k': State, b': Mailbox.Box) {
    && k.current < |k.task| && Has(k, m)
    && match move
       case Kernel(e, c) =>
         && KernelSteps.Next(k, e, c, k') && Keeps(e, m) && (e == Retry || Follows(b, k.current, CallOf(k, e, m)))
         && b' == Apply(b, Completes(ViewOf(k, m), k.current, CallOf(k, e, m)))
       case User(a) =>
         && k' == k && a.task == k.current && k.task[k.current].status == Running && ByUser(b, a)
         && b' == Apply(b, [a])
  }

  ghost predicate Together(k: State, b: Mailbox.Box, m: Parts) {
    Placement(k) && Has(k, m) && Shown(ViewOf(k, m), b) && Mailbox.Safe(b)
  }

  lemma QueuesOrderly(k: State, m: Parts)
    requires Placement(k) && Has(k, m) && (k.current == BOOT || k.task[k.current].status == Running)
    ensures Orderly(ViewOf(k, m), k.current)
  {
    OnlyCurrentRuns(k);
    assert Lists(k, SemQ(m.free)) && Lists(k, SemQ(m.full));
  }

  lemma {:induction false} ApplySafe(b: Mailbox.Box, acts: seq<Mailbox.Action>)
    requires Mailbox.Safe(b) && AllEnabled(b, acts)
    ensures Mailbox.Safe(Apply(b, acts))
    decreases |acts|
  {
    if acts == [] {
    } else {
      Mailbox.StepSafe(b, acts[0]);
      ApplySafe(Mailbox.Step(b, acts[0]), acts[1..]);
    }
  }

  /** A task that comes back from do_block to try again is where the mailbox code waits for the mutex. */
  lemma RetryFollows(k: State, b: Mailbox.Box, m: Parts)
    requires k.current < |k.task| && Has(k, m) && Shown(ViewOf(k, m), b)
    ensures Follows(b, k.current, CallOf(k, Retry, m))
  {
    assert ViewOf(k, m).acquiring[k.current] == (k.task[k.current].resume == Acquiring(m.lock));
  }

  lemma ViewKeeps(v: View, r: View, b: Mailbox.Box, t: nat, call: Call)
    requires Shown(v, b) && Mailbox.Safe(b) && Orderly(v, t) && Follows(b, t, call) && Becomes(v, t, call, r)
    ensures AllEnabled(b, Completes(v, t, call)) && Shown(r, Apply(b, Completes(v, t, call)))
  {
    CallKeeps(v, b, t, call);
    ShownWeaker(After(v, t, call), r, Apply(b, Completes(v, t, call)));
  }

  lemma KernelMoveKeeps(k: State, b: Mailbox.Box, e: Event, c: Clock, m: Parts)
    requires Together(k, b, m) && KernelSteps.Enabled(k, e, c) && Keeps(e, m)
    requires e == Retry || Follows(b, k.current, CallOf(k, e, m))
    ensures var acts := Completes(ViewOf(k, m), k.current, CallOf(k, e, m));
      AllEnabled(b, acts) && Together(KernelSteps.Step(k, e, c), Apply(b, acts), m)
  {
    QueuesOrderly(k, m);
    if e == Retry {
      RetryFollows(k, b, m);
    }
    ViewStep(k, e, c, m);
    ViewKeeps(ViewOf(k, m), ViewOf(KernelSteps.Step(k, e, c), m), b, k.current, CallOf(k, e, m));
    ApplySafe(b, Completes(ViewOf(k, m), k.current, CallOf(k, e, m)));
  }

  lemma UserMoveKeeps(k: State, b: Mailbox.Box, a: Mailbox.Action, m: Parts)
    requires Together(k, b, m) && a.task == k.current && k.task[k.current].status == Running && ByUser(b, a)
    ensures AllEnabled(b, [a]) && Together(k, Apply(b, [a]), m)
  {
    QueuesOrderly(k, m);
    UserKeeps(ViewOf(k, m), b, a);
    ApplySafe(b, [a]);
  }

  /** The steps of the mailbox in one move. */
  ghost function ActsOf(k: State, move: Move, m: Parts): seq<Mailbox.Action>
    requires k.current < |k.task| && Has(k, m)
  {
    match move
    case Kernel(e, _) => Completes(ViewOf(k, m), k.current, CallOf(k, e, m))
    case User(a) => [a]
  }

  lemma MoveKeeps(k: State, b: Mailbox.Box, move: Move, m: Parts, k': State, b': Mailbox.Box)
    requires Together(k, b, m) && Moves(k, b, move, m, k', b')
    ensures AllEnabled(b, ActsOf(k, move, m)) && b' == Apply(b, ActsOf(k, move, m)) && Together(k', b', m)
  {
    match move
    case Kernel(e, c) => KernelMoveKeeps(k, b, e, c, m);
    case User(a) => UserMoveKeeps(k, b, a, m);
  }

  /** What the init calls of mbox_open leave: 32 free slots, no message, nobody waiting, the mutex free. */
  ghost predicate JustOpened(k: State, b: Mailbox.Box, m: Parts) {
    && Placement(k) && Has(k, m) && k.sem[m.free] == Mailbox.MAX_MBOX_LENGTH && k.sem[m.full] == 0 && !k.lock[m.lock]
    && Q(k, SemQ(m.free)) == [] && Q(k, SemQ(m.full)) == []
    && (forall t :: 0 <= t < |k.task| ==> k.task[t].resume != Acquiring(m.lock))
    && Mailbox.Opened(b) && |b.procs| == |k.task|
  }

  ghost predicate MoveAt(ks: seq<State>, bs: seq<Mailbox.Box>, moves: seq<Move>, m: Parts, i: nat) {
    && i < |moves| && i + 1 < |ks| && i + 1 < |bs| && Moves(ks[i], bs[i], moves[i], m, ks[i + 1], bs[i + 1])
  }

  ghost predicate JointRun(ks: seq<State>, bs: seq<Mailbox.Box>, moves: seq<Move>, m: Parts) {
    && |ks| == |bs| == |moves| + 1 && JustOpened(ks[0], bs[0], m)
    && forall i :: 0 <= i < |moves| ==> MoveAt(ks, bs, moves, m, i)
  }

  lemma StartTogether(k: State, b: Mailbox.Box, m: Parts)
    requires JustOpened(k, b, m)
    ensures Together(k, b, m)
  {
    Mailbox.OpenedSafe(b);
  }

  lemma MoveInRun(ks: seq<State>, bs: seq<Mailbox.Box>, moves: seq<Move>, m: Parts, i: nat)
    requires JointRun(ks, bs, moves, m) && i < |moves| && Together(ks[i], bs[i], m)
    ensures AllEnabled(bs[i], ActsOf(ks[i], moves[i], m)) && bs[i + 1] == Apply(bs[i], ActsOf(ks[i], moves[i], m))
    ensures Together(ks[i + 1], bs[i + 1], m)
  {
    assert MoveAt(ks, bs, moves, m, i);
    MoveKeeps(ks[i], bs[i], moves[i], m, ks[i + 1], bs[i + 1]);
  }

  lemma BoxStepKept(boxes: seq<Mailbox.Box>, actions: seq<Mailbox.Action>, r: Mailbox.Box, a: Mailbox.Action, i: nat)
    requires Mailbox.StepAt(boxes, actions, i)
    ensures Mailbox.StepAt(boxes + [r], actions + [a], i)
  {
  }

  lemma BoxRunLonger(boxes: seq<Mailbox.Box>, actions: seq<Mailbox.Action>, a: Mailbox.Action)
    requires Mailbox.Run(boxes, actions) && Mailbox.Enabled(boxes[|actions|], a)
    ensures Mailbox.Run(boxes + [Mailbox.Step(boxes[|actions|], a)], actions + [a])
  {
    var r := Mailbox.Step(boxes[|actions|], a);
    forall i | 0 <= i < |actions + [a]| ensures Mailbox.StepAt(boxes + [r], actions + [a], i) {
      if i < |actions| {
        BoxStepKept(boxes, actions, r, a, i);
      }
    }
  }

  /** Some run of the mailbox ends in this state. */
  ghost predicate Reached(first: Mailbox.Box, b: Mailbox.Box, actions: seq<Mailbox.Action>) {
    exists boxes :: Mailbox.Run(boxes, actions) && boxes[0] == first && boxes[|actions|] == b
  }

  lemma ReachedNext(first: Mailbox.Box, b: Mailbox.Box, actions: seq<Mailbox.Action>, a: Mailbox.Action)
    requires Reached(first, b, actions) && Mailbox.Enabled(b, a)
    ensures Reached(first, Mailbox.Step(b, a), actions + [a])
  {
    var boxes :| Mailbox.Run(boxes, actions) && boxes[0] == first && boxes[|actions|] == b;
    BoxRunLonger(boxes, actions, a);
    var longer := boxes + [Mailbox.Step(b, a)];
    assert longer[0] == first && longer[|actions + [a]|] == Mailbox.Step(b, a);
  }

  lemma {:induction false} ReachedMore(first: Mailbox.Box, b: Mailbox.Box,
    actions: seq<Mailbox.Action>, acts: seq<Mailbox.Action>)
    requires Reached(first, b, actions) && AllEnabled(b, acts)
    ensures Reached(first, Apply(b, acts), actions + acts)
    decreases |acts|
  {
    if acts == [] {
      assert actions + acts == actions;
    } else {
      ReachedNext(first, b, actions, acts[0]);
      ReachedMore(first, Mailbox.Step(b, acts[0]), actions + [acts[0]], acts[1..]);
      assert actions + [acts[0]] + acts[1..] == actions + acts;
    }
  }

  /** The steps of the mailbox in the first n moves. */
  ghost function AllActs(ks: seq<State>, moves: seq<Move>, m: Parts, n: nat): seq<Mailbox.Action>
    requires n <= |moves| < |ks|
  {
    if n == 0 then []
    else
      AllActs(ks, moves, m, n - 1)
      + if ks[n - 1].current < |ks[n - 1].task| && Has(ks[n - 1], m) then ActsOf(ks[n - 1], moves[n - 1], m) else []
  }

  lemma ReachedFirst(b: Mailbox.Box)
    requires Mailbox.Opened(b)
    ensures Reached(b, b, [])
  {
    assert Mailbox.Run([b], []) && [b][0] == b;
  }

  /**
   After n moves the state of the box is the one a run of the mailbox reaches by the steps the
   kernel completed, the semaphores and the mutex show it, and it is safe.
   */
  ghost predicate Projects(ks: seq<State>, bs: seq<Mailbox.Box>, moves: seq<Move>, m: Parts, n: nat) {
    n <= |moves| < |ks| && n < |bs| && Together(ks[n], bs[n], m) && Reached(bs[0], bs[n], AllActs(ks, moves, m, n))
  }

  lemma ProjectsFirst(ks: seq<State>, bs: seq<Mailbox.Box>, moves: seq<Move>, m: Parts)
    requires JointRun(ks, bs, moves, m)
    ensures Projects(ks, bs, moves, m, 0)
  {
    StartTogether(ks[0], bs[0], m);
    ReachedFirst(bs[0]);
  }

  lemma ProjectsNext(ks: seq<State>, bs: seq<Mailbox.Box>, moves: seq<Move>, m: Parts, n: nat)
    requires JointRun(ks, bs, moves, m) && n < |moves| && Projects(ks, bs, moves, m, n)
    ensures Projects(ks, bs, moves, m, n + 1)
  {
    MoveInRun(ks, bs, moves, m, n);
    ReachedMore(bs[0], bs[n], AllActs(ks, moves, m, n), ActsOf(ks[n], moves[n], m));
  }

  /** The same after each of the first n moves. */
  ghost predicate ProjectsSoFar(ks: seq<State>, bs: seq<Mailbox.Box>, moves: seq<Move>, m: Parts, n: nat) {
    forall i: nat :: i <= n ==> Projects(ks, bs, moves, m, i)
  }

  lemma SoFarNext(ks: seq<State>, bs: seq<Mailbox.Box>, moves: seq<Move>, m: Parts, n: nat)
    requires ProjectsSoFar(ks, bs, moves, m, n) && Projects(ks, bs, moves, m, n + 1)
    ensures ProjectsSoFar(ks, bs, moves, m, n + 1)
  {
    forall i: nat | i <= n + 1 ensures Projects(ks, bs, moves, m, i) {
      assert i <= n || i == n + 1;
    }
  }

  /** The mailbox on the kernel is the mailbox, after any number of moves. */
  lemma KernelRunsMailbox(ks: seq<State>, bs: seq<Mailbox.Box>, moves: seq<Move>, m: Parts)
    requires JointRun(ks, bs, moves, m)
    ensures ProjectsSoFar(ks, bs, moves, m, |moves|)
  {
    var n := 0;
    ProjectsFirst(ks, bs, moves, m);
    while n < |moves|
      invariant 0 <= n <= |moves| && ProjectsSoFar(ks, bs, moves, m, n)
    {
      ProjectsNext(ks, bs, moves, m, n);
      SoFarNext(ks, bs, moves, m, n);
      n := n + 1;
    }
  }

  /**
   Each receive among the actions handed out the newest message not yet received, as the
   sender passed it, and every sender's messages are stored in the order it passed them.
   */
  ghost predicate LastInFirstOut(b: Mailbox.Box, actions: seq<Mailbox.Action>) {
    exists boxes :: Mailbox.Run(boxes, actions) && boxes[|actions|] == b &&
      Mailbox.Replay(Mailbox.Ops(boxes, actions, |actions|)) == Some(b.stack) && InPassedOrder(boxes, b, actions)
  }

  ghost predicate InPassedOrder(boxes: seq<Mailbox.Box>, b: Mailbox.Box, actions: seq<Mailbox.Action>)
    requires |actions| < |boxes|
  {
    forall i :: 0 <= i < |b.procs| ==>
      Mailbox.Asked(actions, i) == Mailbox.StoredBy(boxes, actions, i, |actions|) + Mailbox.Pending(b.procs[i])
  }

  lemma ReachedInOrder(first: Mailbox.Box, b: Mailbox.Box, actions: seq<Mailbox.Action>)
    requires Reached(first, b, actions)
    ensures LastInFirstOut(b, actions)
  {
    var boxes :| Mailbox.Run(boxes, actions) && boxes[0] == first && boxes[|actions|] == b;
    Mailbox.LastInFirstOut(boxes, actions, |actions|);
    assert actions[..|actions|] == actions;
    Mailbox.SameCrew(boxes, actions, |actions|);
    forall i | 0 <= i < |b.procs|
      ensures Mailbox.Asked(actions, i) == Mailbox.StoredBy(boxes, actions, i, |actions|) + Mailbox.Pending(b.procs[i])
    {
      Mailbox.StoredAsPassed(boxes, actions, i, |actions|);
    }
  }

  lemma KernelLastInFirstOut(ks: seq<State>, bs: seq<Mailbox.Box>, moves: seq<Move>, m: Parts, n: nat)
    requires JointRun(ks, bs, moves, m) && n <= |moves|
    ensures LastInFirstOut(bs[n], AllActs(ks, moves, m, n))
  {
    KernelRunsMailbox(ks, bs, moves, m);
    assert Projects(ks, bs, moves, m, n);
    ReachedInOrder(bs[0], bs[n], AllActs(ks, moves, m, n));
  }
}
