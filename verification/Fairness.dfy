/**
 Bounded waiting.  The scheduler does not run the task of highest priority: it takes the
 end of the first ascending stretch of the ready queue, and each outgoing task loses a
 point of priority.  This module gives the resulting bound: how many scheduler calls can
 pass over a task in the ready queue, whatever happens in between.
 */
module Fairness {
  import opened Basics
  import opened KernelModel
  import opened KernelSteps

  predicate Live(s: State, t: nat) {
    t < NUM_MAX_TASK && t < |s.task| && s.task[t].status != Exited
  }

  /** By how much a live task outranks priority p. */
  function Excess(s: State, p: int, t: nat): nat {
    if Live(s, t) && s.task[t].priority > p then s.task[t].priority - p else 0
  }

  /** The sum of the excesses of table entries below n. */
  function Outrank(s: State, p: int, n: nat := NUM_MAX_TASK): nat {
    if n == 0 then 0 else Outrank(s, p, n - 1) + Excess(s, p, n - 1)
  }

  /** The share of a waiting list in the bound: two calls per point of excess and one turn for each task on it. */
  function Cost(s: State, list: seq<nat>): nat {
    if list == [] then 0 else 2 * Outrank(s, Priority(s, list[0])) + 1 + Cost(s, list[1..])
  }

  predicate CurrentOutranks(s: State, p: int) {
    Live(s, s.current) && Priority(s, s.current) > p
  }

  /** A list up to and including the first x. */
  function Upto(a: seq<nat>, x: nat): (list: seq<nat>)
    requires x in a
    ensures list != [] && list[0] == a[0] && forall y :: y in list ==> y in a
  {
    if a[0] == x then [x] else [a[0]] + Upto(a[1..], x)
  }

  lemma {:induction false} UptoPrefix(a: seq<nat>, b: seq<nat>, x: nat)
    requires a <= b && x in a
    ensures Upto(b, x) == Upto(a, x)
  {
    if a[0] == x {
    } else {
      UptoPrefix(a[1..], b[1..], x);
    }
  }

  /** The ready queue up to and including x. */
  function Ahead(s: State, x: nat): (list: seq<nat>)
    requires x in Q(s, ReadyQ)
    ensures list != [] && list[0] == Q(s, ReadyQ)[0] && forall y :: y in list ==> y in Q(s, ReadyQ)
  {
    Upto(Q(s, ReadyQ), x)
  }

  /** An upper bound on the scheduler calls until x is chosen. */
  function Potential(s: State, x: nat): int
    requires x in Q(s, ReadyQ)
  {
    Cost(s, Ahead(s, x)) - if CurrentOutranks(s, Priority(s, Ahead(s, x)[0])) then 1 else 0
  }

  // ----------------------------------------------------------------- sums

  /** Nobody came to life and nobody gained priority. */
  ghost predicate Wanes(s: State, r: State) {
    |r.task| == |s.task| && forall t: nat :: Live(r, t) ==> Live(s, t) && r.task[t].priority <= s.task[t].priority
  }

  lemma {:induction false} OutrankWanes(s: State, r: State, p: int, n: nat)
    requires Wanes(s, r)
    ensures Outrank(r, p, n) <= Outrank(s, p, n)
  {
    if n == 0 {
    } else {
      OutrankWanes(s, r, p, n - 1);
      assert Live(r, n - 1) ==> Live(s, n - 1);
    }
  }

  lemma {:induction false} OutrankFalls(s: State, r: State, p: int, n: nat, t: nat)
    requires Wanes(s, r) && t < n && Excess(r, p, t) < Excess(s, p, t)
    ensures Outrank(r, p, n) < Outrank(s, p, n)
  {
    if t == n - 1 {
      OutrankWanes(s, r, p, n - 1);
    } else {
      OutrankFalls(s, r, p, n - 1, t);
      assert Live(r, n - 1) ==> Live(s, n - 1);
    }
  }

  lemma {:induction false} OutrankCounts(s: State, p: int, n: nat, t: nat)
    requires t < n
    ensures Excess(s, p, t) <= Outrank(s, p, n)
  {
    if t == n - 1 {
    } else {
      OutrankCounts(s, p, n - 1, t);
    }
  }

  ghost predicate SamePriorities(s: State, r: State, list: seq<nat>) {
    forall i :: 0 <= i < |list| ==> Priority(r, list[i]) == Priority(s, list[i])
  }

  lemma {:induction false} CostWanes(s: State, r: State, list: seq<nat>)
    requires Wanes(s, r) && SamePriorities(s, r, list)
    ensures Cost(r, list) <= Cost(s, list)
  {
    if list == [] {
    } else {
      OutrankWanes(s, r, Priority(s, list[0]), NUM_MAX_TASK);
      assert forall i :: 0 <= i < |list[1..]| ==> list[1..][i] == list[i + 1];
      CostWanes(s, r, list[1..]);
    }
  }

  lemma {:induction false} CostWithout(s: State, list: seq<nat>, k: nat)
    requires k < |list|
    ensures Cost(s, Without(list, k)) < Cost(s, list)
    ensures k == 0 ==> Cost(s, Without(list, k)) == Cost(s, list) - 2 * Outrank(s, Priority(s, list[0])) - 1
    ensures k > 0 ==> Without(list, k)[0] == list[0]
  {
    if k == 0 {
      assert Without(list, 0) == list[1..];
    } else {
      assert Without(list, k)[1..] == Without(list[1..], k - 1);
      CostWithout(s, list[1..], k - 1);
    }
  }

  /** A strict fall of the head's own share. */
  lemma CostHeadFalls(s: State, r: State, list: seq<nat>, t: nat)
    requires Wanes(s, r) && SamePriorities(s, r, list) && list != [] && t < NUM_MAX_TASK
    requires Excess(r, Priority(s, list[0]), t) < Excess(s, Priority(s, list[0]), t)
    ensures Cost(r, list) <= Cost(s, list) - 2
  {
    OutrankFalls(s, r, Priority(s, list[0]), NUM_MAX_TASK, t);
    assert forall i :: 0 <= i < |list[1..]| ==> list[1..][i] == list[i + 1];
    CostWanes(s, r, list[1..]);
  }

  lemma PotentialPositive(s: State, x: nat)
    requires x in Q(s, ReadyQ)
    ensures Potential(s, x) >= 1
  {
    var p := Priority(s, Ahead(s, x)[0]);
    if CurrentOutranks(s, p) {
      OutrankCounts(s, p, NUM_MAX_TASK, s.current);
    }
  }

  /** For the head of the ready queue the bound is twice the total excess over it. */
  lemma HeadPotential(s: State)
    requires Q(s, ReadyQ) != []
    ensures var h := Q(s, ReadyQ)[0]; var p := Priority(s, h);
      Potential(s, h) == 2 * Outrank(s, p) + 1 - if CurrentOutranks(s, p) then 1 else 0
  {
    var h := Q(s, ReadyQ)[0];
    assert Ahead(s, h) == [h] && [h][1..] == [];
    assert Cost(s, [h]) == 2 * Outrank(s, Priority(s, h)) + 1 + Cost(s, []);
  }

  // ----------------------------------------------------------------- calls between two scheduler calls

  /** Priorities stay, nobody comes to life, and the ready queue only grows at its tail. */
  ghost predicate Calm(s: State, r: State) {
    && |r.task| == |s.task| && r.current == s.current
    && (forall t :: 0 <= t < |s.task| ==> r.task[t].priority == s.task[t].priority)
    && (forall t: nat :: Live(r, t) ==> Live(s, t))
    && Q(s, ReadyQ) <= Q(r, ReadyQ)
  }

  lemma QuietIsCalm(s: State, r: State)
    requires Formed(s) && Fitting(s) && Quiet(s, r)
    ensures Calm(s, r)
  {
    forall t: nat | Live(r, t) ensures Live(s, t) {
      assert SameIdentity(s.task[t], r.task[t]) && Fits(s, t);
    }
    forall t | 0 <= t < |s.task| ensures r.task[t].priority == s.task[t].priority {
      assert SameIdentity(s.task[t], r.task[t]);
    }
  }

  lemma AheadOfPrefix(s: State, r: State, x: nat)
    requires Q(s, ReadyQ) <= Q(r, ReadyQ) && x in Q(s, ReadyQ)
    ensures x in Q(r, ReadyQ) && Ahead(r, x) == Ahead(s, x)
  {
    UptoPrefix(Q(s, ReadyQ), Q(r, ReadyQ), x);
  }

  lemma CalmPotential(s: State, r: State, x: nat)
    requires Calm(s, r) && x in Q(s, ReadyQ)
    ensures x in Q(r, ReadyQ) && Potential(r, x) <= Potential(s, x)
  {
    AheadOfPrefix(s, r, x);
    var list := Ahead(s, x);
    CostWanes(s, r, list);
    var p := Priority(s, list[0]);
    if CurrentOutranks(s, p) && !CurrentOutranks(r, p) {
      CostHeadFalls(s, r, list, s.current);
    }
  }

  lemma ParkIsCalm(s: State, t: nat, q: QueueId, status: Status)
    requires Placement(s) && t < NUM_MAX_TASK && s.task[t].home == None && s.task[t].status != Exited
    requires q in s.queue && StatusFor(q, status) && q != ReadyQ
    requires q.WaitQ? && q.task < NUM_MAX_TASK ==> s.task[q.task].status != Exited
    ensures Calm(s, Park(s, t, q, status))
  {
  }

  lemma ExitIsCalm(s: State)
    requires Placement(s) && s.current < NUM_MAX_TASK && s.task[s.current].status == Running
    ensures Calm(s, ExitTask(s))
  {
    var m := ReleaseSlots(s, s.current);
    var w := WakeAll(m, WaitQ(s.current));
    WokenTransitive(s, m, w);
    QuietIsCalm(s, w);
    var r := ExitTask(s);
    forall u: nat | Live(r, u) ensures Live(s, u) {
      assert Live(w, u);
    }
  }

  lemma CalmTransitive(a: State, b: State, c: State)
    requires Calm(a, b) && Calm(b, c)
    ensures Calm(a, c)
  {
  }

  /** Words other than status, priority and links do not matter here. */
  lemma UntouchedIsCalm(s: State, r: State)
    requires |r.task| == |s.task| && r.current == s.current && Q(r, ReadyQ) == Q(s, ReadyQ)
    requires forall t :: 0 <= t < |s.task| ==>
      r.task[t].priority == s.task[t].priority && r.task[t].status == s.task[t].status
    ensures Calm(s, r)
  {
  }

  lemma AcquireIsCalm(s: State, l: nat)
    requires Placement(s) && s.current < NUM_MAX_TASK && s.task[s.current].status == Running && l < |s.lock|
    ensures Calm(s, Acquire(s, l))
  {
    OnlyCurrentRuns(s);
    if s.lock[l] {
      var u := SetResume(s, Acquiring(l));
      UntouchedIsCalm(s, u);
      ParkIsCalm(u, s.current, LockQ(l), Blocked);
      CalmTransitive(s, u, Acquire(s, l));
    } else {
      UntouchedIsCalm(s, Acquire(s, l));
    }
  }

  lemma ConditionIsCalm(s: State, l: nat, c: nat)
    requires Placement(s) && s.current < NUM_MAX_TASK && s.task[s.current].status == Running
    requires l < |s.lock| && CondQ(c) in s.queue
    ensures Calm(s, WaitOnCondition(s, l, c))
  {
    OnlyCurrentRuns(s);
    var u := SetResume(s, Acquiring(l));
    UntouchedIsCalm(s, u);
    ParkIsCalm(u, s.current, CondQ(c), Blocked);
    var p := Park(u, s.current, CondQ(c), Blocked);
    QuietIsCalm(p, Release(p, l));
    CalmTransitive(s, u, p);
    CalmTransitive(s, p, Release(p, l));
  }

  lemma SleepIsCalm(s: State, deadline: nat)
    requires Placement(s) && s.current < NUM_MAX_TASK && s.task[s.current].status == Running
    ensures Calm(s, SleepUntil(s, deadline))
  {
  }

  /** Calls that only wake tasks. */
  predicate OnlyWakes(e: Event) {
    e.WakeOne? || e.WakeEvery? || e.Unlock? || e.Signal? || e.Broadcast?
  }

  lemma WakingIsCalm(s: State, e: Event)
    requires Placement(s) && Allowed(s, e) && OnlyWakes(e)
    ensures Calm(s, Act(s, e))
  {
    var r := match e
      case WakeOne(q) => UnblockOne(s, q)
      case WakeEvery(q) => UnblockAll(s, q)
      case Unlock(l) => Release(s, l)
      case Signal(c) => WakeFirst(s, CondQ(c))
      case Broadcast(c) => WakeAll(s, CondQ(c));
    QuietIsCalm(s, r);
  }

  /** Every call but do_spawn and do_kill is calm. */
  lemma ActIsCalm(s: State, e: Event)
    requires Placement(s) && Allowed(s, e) && !e.Spawn? && !e.Kill?
    ensures Calm(s, Act(s, e))
  {
    if OnlyWakes(e) {
      WakingIsCalm(s, e);
    } else if e.WaitPid? || e.BlockOn? {
      ParkingIsCalm(s, e);
    } else {
      match e
      case SleepFor(time, now) => SleepIsCalm(s, (now + time) % WORD);
      case Exit => ExitIsCalm(s);
      case Lock(l) => AcquireIsCalm(s, l);
      case Retry => AcquireIsCalm(s, s.task[s.current].resume.lock);
      case CondWait(l, c) => ConditionIsCalm(s, l, c);
      case Up(x) => SemUpIsCalm(s, x);
      case Down(x) => SemDownIsCalm(s, x);
      case Arrive(b) => BarrierIsCalm(s, b);
      case Init(o) => ResetIsCalm(s, o);
      case Timer =>
    }
  }

  lemma ResetIsCalm(s: State, o: Object)
    requires Placement(s) && Exists(s, o) && Q(s, QueueOf(o)) == []
    ensures Calm(s, Reset(s, o))
  {
    ResetKeeps(s, o);
    UntouchedIsCalm(s, Reset(s, o));
  }

  lemma ParkingIsCalm(s: State, e: Event)
    requires Placement(s) && Allowed(s, e) && (e.WaitPid? || e.BlockOn?)
    ensures Calm(s, Act(s, e))
  {
    OnlyCurrentRuns(s);
    match e
    case BlockOn(q) => ParkIsCalm(s, s.current, q, Blocked);
    case WaitPid(n) =>
      if FindPid(s.task, n) < NUM_MAX_TASK && s.task[FindPid(s.task, n)].status != Exited {
        ParkIsCalm(s, s.current, WaitQ(FindPid(s.task, n)), Blocked);
      }
  }

  lemma SemUpIsCalm(s: State, x: nat)
    requires Placement(s) && x < |s.sem|
    ensures Calm(s, SemUp(s, x))
  {
    if Q(s, SemQ(x)) != [] {
      QuietIsCalm(s, WakeFirst(s, SemQ(x)));
    } else {
      forall t: nat | Live(SemUp(s, x), t) ensures Live(s, t) { }
    }
  }

  lemma SemDownIsCalm(s: State, x: nat)
    requires Placement(s) && s.current < NUM_MAX_TASK && s.task[s.current].status == Running && x < |s.sem|
    ensures Calm(s, SemDown(s, x))
  {
  }

  lemma BarrierIsCalm(s: State, b: nat)
    requires Placement(s) && s.current < NUM_MAX_TASK && s.task[s.current].status == Running && b < |s.barrier|
    ensures Calm(s, BarrierWait(s, b))
  {
    OnlyCurrentRuns(s);
    var r := BarrierWait(s, b);
    if s.barrier[b].missing == 1 {
      var w := WakeAll(s, BarrierQ(b));
      QuietIsCalm(s, w);
      forall t: nat | Live(r, t) ensures Live(s, t) { assert Live(w, t); }
    } else {
      var u := s.(barrier := s.barrier[b := s.barrier[b].(missing := s.barrier[b].missing - 1)]);
      SamePlacesKeep(s, u);
      ParkIsCalm(u, s.current, BarrierQ(b), Blocked);
      forall t: nat | Live(r, t) ensures Live(s, t) { assert Live(u, t); }
    }
  }

  lemma WithoutTail(a: seq<nat>, k: nat)
    requires 0 < k < |a|
    ensures Without(a, k) == [a[0]] + Without(a[1..], k - 1) && Without(a, k)[1..] == Without(a[1..], k - 1)
  {
  }

  lemma {:induction false} UptoWithout(a: seq<nat>, x: nat, k: nat)
    requires k < |a| && a[k] != x && x in a
    ensures x in Without(a, k)
    ensures Upto(Without(a, k), x) == if k < |Upto(a, x)| then Without(Upto(a, x), k) else Upto(a, x)
  {
    if k == 0 {
      assert Without(a, 0) == a[1..];
      assert Without(Upto(a, x), 0) == Upto(a[1..], x);
    } else {
      WithoutTail(a, k);
      if a[0] != x {
        var rest := Upto(a[1..], x);
        UptoWithout(a[1..], x, k - 1);
        if k - 1 < |rest| {
          WithoutTail([a[0]] + rest, k);
        }
      }
    }
  }

  /** Taking another task out of the ready queue shortens the list ahead of x or leaves it alone. */
  lemma AheadWithout(s: State, r: State, x: nat, k: nat)
    requires k < |Q(s, ReadyQ)| && Q(r, ReadyQ) == Without(Q(s, ReadyQ), k) && Q(s, ReadyQ)[k] != x && x in Q(s, ReadyQ)
    ensures x in Q(r, ReadyQ)
    ensures var list := Ahead(s, x);
      Ahead(r, x) == if k < |list| then Without(list, k) else list
  {
    UptoWithout(Q(s, ReadyQ), x, k);
  }

  /** A kill of another task never lengthens the wait. */
  lemma KillPotential(s: State, n: nat, x: nat)
    requires Placement(s) && KillReaches(s, n) && x in Q(s, ReadyQ) && x in Q(KillTask(s, n), ReadyQ)
    ensures Potential(KillTask(s, n), x) <= Potential(s, x)
  {
    var i := FindPid(s.task, n);
    if i < NUM_MAX_TASK && s.task[i].status != Exited {
      KilledIsGone(s, n);
      DetachPotential(s, i, x);
      KillAfterDetach(s, i);
      CalmPotential(Detach(s, i), KillTask(s, n), x);
    }
  }

  lemma KilledIsGone(s: State, n: nat)
    requires Placement(s) && KillReaches(s, n) && FindPid(s.task, n) < NUM_MAX_TASK
    ensures FindPid(s.task, n) !in Q(KillTask(s, n), ReadyQ)
  {
    KillKeeps(s, n);
    var r := KillTask(s, n);
    assert Lists(r, ReadyQ) && Fits(r, FindPid(s.task, n));
  }

  lemma DyingIsCalm(d: State, i: nat)
    requires Formed(d) && i < NUM_MAX_TASK
    ensures Calm(d, SetStatus(d, i, Exited))
  {
  }

  lemma KillAfterDetach(s: State, i: nat)
    requires Placement(s) && i < NUM_MAX_TASK
    requires s.task[i].status == Blocked ==> OnRegisteredLock(s.task[i])
    ensures Calm(Detach(s, i), WakeAll(ReleaseSlots(SetStatus(Detach(s, i), i, Exited), i), WaitQ(i)))
  {
    DetachedFits(s, i);
    var d := Detach(s, i);
    var e := SetStatus(d, i, Exited);
    FinishWakes(e, i);
    QuietIsCalm(e, WakeAll(ReleaseSlots(e, i), WaitQ(i)));
    DyingIsCalm(d, i);
    CalmTransitive(d, e, WakeAll(ReleaseSlots(e, i), WaitQ(i)));
  }

  lemma DetachPotential(s: State, i: nat, x: nat)
    requires Placement(s) && i < NUM_MAX_TASK && i != x && x in Q(s, ReadyQ)
    requires s.task[i].status == Blocked ==> OnRegisteredLock(s.task[i])
    ensures var d := Detach(s, i); x in Q(d, ReadyQ) && Potential(d, x) <= Potential(s, x)
  {
    DetachEffect(s, i);
    DetachQueue(s, i);
    var d := Detach(s, i);
    if s.task[i].status in {Ready, Created} {
      RemovalPotential(s, d, x, IndexOf(Q(s, ReadyQ), i));
    } else {
      CalmPotential(s, d, x);
    }
  }

  lemma DetachQueue(s: State, i: nat)
    requires Placement(s) && i < NUM_MAX_TASK
    ensures var d := Detach(s, i);
      if s.task[i].status in {Ready, Created}
      then i in Q(s, ReadyQ) && Q(d, ReadyQ) == Without(Q(s, ReadyQ), IndexOf(Q(s, ReadyQ), i))
      else Q(d, ReadyQ) == Q(s, ReadyQ)
  {
    assert Fits(s, i) && AtHome(s, i);
    if s.task[i].status == Blocked {
      LeaveLocksEffect(s, i, 0);
    }
  }

  lemma SameTasksWane(s: State, d: State, list: seq<nat>)
    requires |d.task| == |s.task|
    requires forall t :: 0 <= t < |s.task| ==>
      d.task[t].priority == s.task[t].priority && d.task[t].status == s.task[t].status
    ensures Wanes(s, d) && SamePriorities(s, d, list)
  {
  }

  lemma RemovalPotential(s: State, d: State, x: nat, k: nat)
    requires x in Q(s, ReadyQ) && k < |Q(s, ReadyQ)| && Q(s, ReadyQ)[k] != x && Q(d, ReadyQ) == Without(Q(s, ReadyQ), k)
    requires d.current == s.current && |d.task| == |s.task|
    requires forall t :: 0 <= t < |s.task| ==>
      d.task[t].priority == s.task[t].priority && d.task[t].status == s.task[t].status
    ensures x in Q(d, ReadyQ) && Potential(d, x) <= Potential(s, x)
  {
    AheadWithout(s, d, x, k);
    SameTasksWane(s, d, Ahead(d, x));
    CostWanes(s, d, Ahead(d, x));
    if k < |Ahead(s, x)| {
      PotentialAfterRemoval(s, d, x, k);
    }
  }

  lemma PotentialAfterRemoval(s: State, d: State, x: nat, k: nat)
    requires x in Q(s, ReadyQ) && x in Q(d, ReadyQ) && k < |Ahead(s, x)| && Ahead(d, x) == Without(Ahead(s, x), k)
    requires d.current == s.current && |d.task| == |s.task|
    requires forall t :: 0 <= t < |s.task| ==>
      d.task[t].priority == s.task[t].priority && d.task[t].status == s.task[t].status
    requires Cost(d, Ahead(d, x)) <= Cost(s, Ahead(d, x))
    ensures Potential(d, x) <= Potential(s, x)
  {
    var list := Ahead(s, x);
    CostWithout(s, list, k);
    var p := Priority(s, list[0]);
    if k == 0 && CurrentOutranks(s, p) {
      OutrankCounts(s, p, NUM_MAX_TASK, s.current);
    }
  }

  // ----------------------------------------------------------------- one scheduler call

  lemma {:induction false} PickClimbs(s: State, ids: seq<nat>, j: nat, k: nat)
    requires j < k < |ids| && forall i :: j < i <= k ==> Priority(s, ids[i - 1]) < Priority(s, ids[i])
    ensures Priority(s, ids[j]) < Priority(s, ids[k])
  {
    if j + 1 == k {
    } else {
      PickClimbs(s, ids, j, k - 1);
    }
  }

  /** r is s after its k-th ready task was made current and the old current task lost a point. */
  ghost predicate Dispatched(s: State, r: State, k: nat) {
    && |r.task| == |s.task| == NUM_MAX_TASK + 1 && k < |Q(s, ReadyQ)|
    && r.current == Q(s, ReadyQ)[k] && Live(r, r.current) && Q(r, ReadyQ) == Without(Q(s, ReadyQ), k)
    && (forall t :: 0 <= t <= BOOT ==> r.task[t].priority == s.task[t].priority - (if t == s.current then 1 else 0))
    && (forall t: nat :: Live(r, t) <==> Live(s, t))
  }

  lemma DispatchIs(s: State)
    requires Placement(s) && NobodyRuns(s) && Q(s, ReadyQ) != []
    ensures Dispatched(s, Dispatch(s), Pick(s, Q(s, ReadyQ)))
  {
    DispatchInOrder(s);
    assert Lists(s, ReadyQ);
    assert Fits(s, Q(s, ReadyQ)[Pick(s, Q(s, ReadyQ))]);
    var r := Dispatch(s);
    forall t: nat ensures Live(r, t) <==> Live(s, t) { }
  }

  lemma DispatchWanes(s: State, r: State, k: nat, list: seq<nat>)
    requires Dispatched(s, r, k) && s.current !in list
    ensures Wanes(s, r) && SamePriorities(s, r, list)
  {
  }

  /** A dispatch that passes over x strictly lowers its bound. */
  lemma DispatchFalls(s: State, x: nat)
    requires Placement(s) && NobodyRuns(s) && x in Q(s, ReadyQ) && s.current !in Ahead(s, x)
    requires Dispatch(s).current != x
    ensures x in Q(Dispatch(s), ReadyQ) && Potential(Dispatch(s), x) < Potential(s, x)
  {
    DispatchIs(s);
    PassedOver(s, Dispatch(s), x);
  }

  lemma PassedOver(s: State, r: State, x: nat)
    requires x in Q(s, ReadyQ) && s.current !in Ahead(s, x) && Dispatched(s, r, Pick(s, Q(s, ReadyQ))) && r.current != x
    ensures x in Q(r, ReadyQ) && Potential(r, x) < Potential(s, x)
  {
    var k := Pick(s, Q(s, ReadyQ));
    AheadWithout(s, r, x, k);
    if k == 0 {
      HeadTaken(s, r, x);
    } else {
      PickClimbs(s, Q(s, ReadyQ), 0, k);
      HeadOvertaken(s, r, x, k);
    }
  }

  lemma HeadTaken(s: State, r: State, x: nat)
    requires x in Q(s, ReadyQ) && s.current !in Ahead(s, x) && Dispatched(s, r, 0)
    requires x in Q(r, ReadyQ) && Ahead(r, x) == Without(Ahead(s, x), 0)
    ensures Potential(r, x) < Potential(s, x)
  {
    DispatchWanes(s, r, 0, Ahead(s, x));
    HeadDropped(s, r, Ahead(s, x));
    PotentialFalls(s, r, x, 0);
  }

  lemma HeadOvertaken(s: State, r: State, x: nat, k: nat)
    requires x in Q(s, ReadyQ) && s.current !in Ahead(s, x) && Dispatched(s, r, k) && k > 0
    requires x in Q(r, ReadyQ) && Ahead(r, x) == if k < |Ahead(s, x)| then Without(Ahead(s, x), k) else Ahead(s, x)
    requires Priority(s, Ahead(s, x)[0]) < Priority(s, r.current)
    ensures Potential(r, x) < Potential(s, x)
  {
    DispatchWanes(s, r, k, Ahead(s, x));
    OvertakenFalls(s, r, Ahead(s, x), k);
    PotentialFalls(s, r, x, k);
  }

  lemma PotentialFalls(s: State, r: State, x: nat, k: nat)
    requires x in Q(s, ReadyQ) && x in Q(r, ReadyQ) && SamePriorities(s, r, Ahead(s, x))
    requires Ahead(r, x) == if k < |Ahead(s, x)| then Without(Ahead(s, x), k) else Ahead(s, x)
    requires k == 0 ==>
      Cost(r, Ahead(s, x)) - 2 * Outrank(r, Priority(r, Ahead(s, x)[0])) - 1
      <= Cost(s, Ahead(s, x)) - 1 - if CurrentOutranks(s, Priority(s, Ahead(s, x)[0])) then 1 else 0
    requires k > 0 ==>
      Cost(r, Ahead(s, x)) - (if CurrentOutranks(r, Priority(s, Ahead(s, x)[0])) then 1 else 0)
      < Cost(s, Ahead(s, x)) - if CurrentOutranks(s, Priority(s, Ahead(s, x)[0])) then 1 else 0
    ensures Potential(r, x) < Potential(s, x)
  {
    var list := Ahead(s, x);
    if k < |list| {
      CostWithout(r, list, k);
    }
  }

  /** The head was chosen: its whole share goes. */
  lemma HeadDropped(s: State, r: State, list: seq<nat>)
    requires Wanes(s, r) && SamePriorities(s, r, list) && list != []
    ensures Cost(r, list) - 2 * Outrank(r, Priority(r, list[0])) - 1
         <= Cost(s, list) - 1 - if CurrentOutranks(s, Priority(s, list[0])) then 1 else 0
  {
    var p := Priority(s, list[0]);
    assert forall i :: 0 <= i < |list[1..]| ==> list[1..][i] == list[i + 1];
    CostWanes(s, r, list[1..]);
    if CurrentOutranks(s, p) {
      OutrankCounts(s, p, NUM_MAX_TASK, s.current);
    }
  }

  /** The head was overtaken by a task of higher priority, which is now current. */
  lemma OvertakenFalls(s: State, r: State, list: seq<nat>, k: nat)
    requires Dispatched(s, r, k) && list != [] && s.current !in list
    requires Priority(s, list[0]) < Priority(s, r.current)
    ensures var p := Priority(s, list[0]);
      Cost(r, list) - (if CurrentOutranks(r, p) then 1 else 0) < Cost(s, list) - if CurrentOutranks(s, p) then 1 else 0
  {
    var p := Priority(s, list[0]);
    DispatchWanes(s, r, k, list);
    if CurrentOutranks(s, p) {
      CostHeadFalls(s, r, list, s.current);
    } else {
      CostWanes(s, r, list);
      assert Live(s, r.current);
      assert CurrentOutranks(r, p);
    }
  }

  lemma RequeueIsCalm(s: State)
    requires Placement(s)
    ensures Calm(s, Requeue(s))
  {
  }

  /** A scheduler call that passes over x strictly lowers its bound. */
  lemma ScheduleFalls(s: State, c: Clock, x: nat)
    requires Placement(s) && Q(Wake(Requeue(s), c), ReadyQ) != []
    requires x in Q(s, ReadyQ) && s.current !in Ahead(s, x)
    requires Schedule(s, c).current != x
    ensures x in Q(Schedule(s, c), ReadyQ) && Potential(Schedule(s, c), x) < Potential(s, x)
  {
    var m := Requeue(s);
    var w := Wake(m, c);
    RequeueIsCalm(s);
    QuietIsCalm(m, w);
    CalmPotential(s, m, x);
    CalmPotential(m, w, x);
    AheadOfPrefix(s, m, x);
    AheadOfPrefix(m, w, x);
    WokenNobodyRuns(m, w);
    DispatchFalls(w, x);
  }

  /** A yielding call is calm and its caller is not ahead of anybody. */
  lemma YieldingIsCalm(s: State, e: Event)
    requires Placement(s) && Allowed(s, e) && Yields(s, e)
    ensures Calm(s, Act(s, e))
  {
    if e.Kill? {
      var i := FindPid(s.task, e.pid);
      if s.task[i].status != Exited {
        KillsItself(s, e.pid);
        KillAfterDetach(s, i);
        DetachEffect(s, i);
        assert Fits(s, i);
      }
    } else {
      ActIsCalm(s, e);
    }
  }

  lemma KillsItself(s: State, n: nat)
    requires Placement(s) && s.current < NUM_MAX_TASK && s.task[s.current].status == Running
    requires s.task[s.current].pid == n
    ensures FindPid(s.task, n) == s.current
  {
  }

  // ----------------------------------------------------------------- runs

  /** By how much a new task outranks priority p. */
  function NewExcess(p: int): nat {
    if p < INITIAL_PRIORITY then INITIAL_PRIORITY - p else 0
  }

  /** What one more task can add to the bound of a waiting list. */
  function SpawnCost(s: State, list: seq<nat>): nat {
    if list == [] then 0 else 2 * NewExcess(Priority(s, list[0])) + SpawnCost(s, list[1..])
  }

  lemma {:induction false} OutrankSpawn(s: State, r: State, p: int, i: nat, n: nat)
    requires |s.task| == |r.task| == NUM_MAX_TASK + 1 && i < NUM_MAX_TASK && !Live(s, i)
    requires r.task[i].priority == INITIAL_PRIORITY
    requires forall t :: 0 <= t < NUM_MAX_TASK && t != i ==> r.task[t] == s.task[t]
    ensures Outrank(r, p, n) <= Outrank(s, p, n) + if i < n then NewExcess(p) else 0
  {
    if n == 0 {
    } else {
      OutrankSpawn(s, r, p, i, n - 1);
    }
  }

  lemma {:induction false} CostSpawn(s: State, r: State, list: seq<nat>, i: nat)
    requires |s.task| == |r.task| == NUM_MAX_TASK + 1 && i < NUM_MAX_TASK && !Live(s, i)
    requires r.task[i].priority == INITIAL_PRIORITY
    requires forall t :: 0 <= t <= BOOT && t != i ==> r.task[t].priority == s.task[t].priority
    requires forall t :: 0 <= t < NUM_MAX_TASK && t != i ==> r.task[t] == s.task[t]
    requires i !in list
    ensures Cost(r, list) <= Cost(s, list) + SpawnCost(s, list)
  {
    if list == [] {
    } else {
      OutrankSpawn(s, r, Priority(s, list[0]), i, NUM_MAX_TASK);
      CostSpawn(s, r, list[1..], i);
    }
  }

  lemma SpawnEffect(s: State)
    requires Placement(s)
    ensures var r, i := SpawnTask(s), FreeEntry(s.task);
      && |r.task| == |s.task| == NUM_MAX_TASK + 1 && r.current == s.current
      && Q(s, ReadyQ) <= Q(r, ReadyQ)
      && (forall t :: 0 <= t <= BOOT && t != i ==> r.task[t] == s.task[t])
      && (i < NUM_MAX_TASK ==> i !in Q(s, ReadyQ) && r.task[i].priority == INITIAL_PRIORITY)
      && (i == NUM_MAX_TASK ==> r.task == s.task)
  {
    var i := FreeEntry(s.task);
    if i < NUM_MAX_TASK {
      assert Lists(s, ReadyQ) && Fits(s, i);
    }
  }

  lemma SpawnPotential(s: State, x: nat)
    requires Placement(s) && x in Q(s, ReadyQ) && (s.current == BOOT || Live(s, s.current))
    ensures x in Q(SpawnTask(s), ReadyQ)
    ensures Potential(SpawnTask(s), x) <= Potential(s, x) + SpawnCost(s, Ahead(s, x))
  {
    SpawnEffect(s);
    SpawnGrows(s, SpawnTask(s), x, FreeEntry(s.task));
  }

  lemma SpawnGrows(s: State, r: State, x: nat, i: nat)
    requires |r.task| == |s.task| == NUM_MAX_TASK + 1 && r.current == s.current
    requires s.current == BOOT || Live(s, s.current)
    requires Q(s, ReadyQ) <= Q(r, ReadyQ) && x in Q(s, ReadyQ)
    requires forall t :: 0 <= t <= BOOT && t != i ==> r.task[t] == s.task[t]
    requires i < NUM_MAX_TASK ==> !Live(s, i) && i !in Q(s, ReadyQ) && r.task[i].priority == INITIAL_PRIORITY
    requires i >= NUM_MAX_TASK ==> r.task == s.task
    ensures x in Q(r, ReadyQ) && Potential(r, x) <= Potential(s, x) + SpawnCost(s, Ahead(s, x))
  {
    AheadOfPrefix(s, r, x);
    var list := Ahead(s, x);
    if i < NUM_MAX_TASK {
      CostSpawn(s, r, list, i);
    } else {
      CostWanes(s, r, list);
    }
  }

  /** One step: a scheduler call costs at least one unit of the bound, only do_spawn adds to it. */
  lemma StepFalls(s: State, e: Event, c: Clock, x: nat)
    requires Placement(s) && Enabled(s, e, c) && x in Q(s, ReadyQ) && x in Q(Step(s, e, c), ReadyQ)
    ensures Potential(Step(s, e, c), x) + (if Yields(s, e) then 1 else 0)
         <= Potential(s, x) + if e.Spawn? then SpawnCost(s, Ahead(s, x)) else 0
  {
    if Yields(s, e) {
      YieldingIsCalm(s, e);
      var a := Act(s, e);
      CalmPotential(s, a, x);
      AheadOfPrefix(s, a, x);
      CurrentNotAhead(s, e, x);
      ChosenLeaves(a, c, x);
      ScheduleFalls(a, c, x);
    } else if e.Spawn? {
      SpawnPotential(s, x);
    } else if e.Kill? {
      KillPotential(s, e.pid, x);
    } else {
      ActIsCalm(s, e);
      CalmPotential(s, Act(s, e), x);
    }
  }

  lemma CurrentNotAhead(s: State, e: Event, x: nat)
    requires Placement(s) && Allowed(s, e) && x in Q(s, ReadyQ)
    ensures s.current !in Ahead(s, x)
  {
    assert Lists(s, ReadyQ) && Fits(s, s.current);
  }

  lemma ChosenLeaves(s: State, c: Clock, x: nat)
    requires Placement(s) && Q(Wake(Requeue(s), c), ReadyQ) != [] && x in Q(Schedule(s, c), ReadyQ)
    ensures Schedule(s, c).current != x
  {
    var r := Schedule(s, c);
    assert Lists(r, ReadyQ) && Fits(r, r.current);
  }

  /** The event reaches the scheduler. */
  predicate Calling(s: State, e: Event) {
    |s.task| == NUM_MAX_TASK + 1 && Allowed(s, e) && Yields(s, e)
  }

  /** Scheduler calls among the first n events of a run. */
  ghost function Calls(states: seq<State>, events: seq<(Event, Clock)>, n: nat): nat
    requires n <= |events| < |states|
  {
    if n == 0 then 0 else Calls(states, events, n - 1) + if Calling(states[n - 1], events[n - 1].0) then 1 else 0
  }

  /** What an event adds to the bound of x. */
  function Surcharge(s: State, e: Event, x: nat): nat {
    if e.Spawn? && x in Q(s, ReadyQ) then SpawnCost(s, Ahead(s, x)) else 0
  }

  /** What the do_spawn calls among the first n events add to the bound of x. */
  ghost function Debt(states: seq<State>, events: seq<(Event, Clock)>, x: nat, n: nat): nat
    requires n <= |events| < |states|
  {
    if n == 0 then 0 else Debt(states, events, x, n - 1) + Surcharge(states[n - 1], events[n - 1].0, x)
  }

  lemma StepInRunFalls(states: seq<State>, events: seq<(Event, Clock)>, x: nat, n: nat)
    requires Run(states, events) && n < |events| && x in Q(states[n], ReadyQ) && x in Q(states[n + 1], ReadyQ)
    ensures Potential(states[n + 1], x) + (if Calling(states[n], events[n].0) then 1 else 0)
         <= Potential(states[n], x) + Surcharge(states[n], events[n].0, x)
  {
    NextInRun(states, events, n);
    StepFalls(states[n], events[n].0, events[n].1, x);
  }

  /**
   Bounded waiting: while x stays in the ready queue (is neither chosen nor killed), the
   scheduler calls so far and the bound still left never exceed the bound at the start
   plus what new tasks added.
   */
  lemma WaitingIsBounded(states: seq<State>, events: seq<(Event, Clock)>, x: nat, n: nat)
    requires Run(states, events) && n <= |events|
    requires forall i :: 0 <= i < |states| ==> x in Q(states[i], ReadyQ)
    ensures Calls(states, events, n) + Potential(states[n], x) <= Potential(states[0], x) + Debt(states, events, x, n)
  {
    var k := 0;
    while k < n
      invariant 0 <= k <= n
      invariant Calls(states, events, k) + Potential(states[k],
        x) <= Potential(states[0], x) + Debt(states, events, x, k)
    {
      StepInRunFalls(states, events, x, k);
      k := k + 1;
    }
  }

  /** A task leaves the ready queue only by being chosen or killed. */
  lemma LeavesByTurnOrKill(s: State, e: Event, c: Clock, x: nat)
    requires Placement(s) && Enabled(s, e, c) && x in Q(s, ReadyQ) && x !in Q(Step(s, e, c), ReadyQ)
    ensures var r := Step(s, e, c); x < |r.task| && (r.current == x || r.task[x].status == Exited)
  {
    assert Lists(s, ReadyQ);
    if Yields(s, e) {
      LeavesByTurn(s, e, c, x);
    } else if e.Kill? {
      LeavesByKill(s, e.pid, x);
    } else if e.Spawn? {
      SpawnEffect(s);
    } else {
      ActIsCalm(s, e);
    }
  }

  lemma LeavesByTurn(s: State, e: Event, c: Clock, x: nat)
    requires Placement(s) && Allowed(s, e) && Yields(s, e) && Placement(Act(s, e))
    requires Q(Wake(Requeue(Act(s, e)), c), ReadyQ) != []
    requires x in Q(s, ReadyQ)
    ensures Schedule(Act(s, e), c).current == x || x in Q(Schedule(Act(s, e), c), ReadyQ)
  {
    YieldingIsCalm(s, e);
    CalmPotential(s, Act(s, e), x);
    AheadOfPrefix(s, Act(s, e), x);
    CurrentNotAhead(s, e, x);
    if Schedule(Act(s, e), c).current != x {
      ScheduleFalls(Act(s, e), c, x);
    }
  }

  lemma LeavesByKill(s: State, n: nat, x: nat)
    requires Placement(s) && KillReaches(s, n) && x in Q(s, ReadyQ) && x < NUM_MAX_TASK
    ensures x in Q(KillTask(s, n), ReadyQ) || KillTask(s, n).task[x].status == Exited
  {
    KillKeeps(s, n);
    var i := FindPid(s.task, n);
    if i < NUM_MAX_TASK && s.task[i].status != Exited && i != x {
      DetachPotential(s, i, x);
      KillAfterDetach(s, i);
      CalmPotential(Detach(s, i), KillTask(s, n), x);
    }
  }

  /** Without do_spawn, every ready task is chosen (or killed) within its initial bound. */
  lemma {:induction false} EveryReadyTaskRuns(states: seq<State>, events: seq<(Event, Clock)>, x: nat)
    requires Run(states, events) && x in Q(states[0], ReadyQ)
    requires forall i :: 0 <= i < |events| ==> !events[i].0.Spawn?
    requires Calls(states, events, |events|) >= Potential(states[0], x)
    ensures exists i ::
      0 < i < |states| && x < |states[i].task| && (states[i].current == x || states[i].task[x].status == Exited)
  {
    if forall i :: 0 <= i < |states| ==> x in Q(states[i], ReadyQ) {
      CannotWaitThatLong(states, events, x);
    } else {
      var i := FirstAbsence(states, x);
      LeavesInRun(states, events, x, i - 1);
    }
  }

  /**
   The head of the ready queue: with M the sum of what the live tasks outrank it by, 2M + 1
   scheduler calls, one less if the current task outranks it, see it chosen or killed.
   */
  lemma HeadRuns(states: seq<State>, events: seq<(Event, Clock)>)
    requires Run(states, events) && Q(states[0], ReadyQ) != []
    requires forall i :: 0 <= i < |events| ==> !events[i].0.Spawn?
    requires var p := Priority(states[0], Q(states[0], ReadyQ)[0]);
      Calls(states, events, |events|) >= 2 * Outrank(states[0], p) + 1 - if CurrentOutranks(states[0], p) then 1 else 0
    ensures var h := Q(states[0], ReadyQ)[0];
      exists i :: 0 < i < |states| && h < |states[i].task| &&
        (states[i].current == h || states[i].task[h].status == Exited)
  {
    HeadPotential(states[0]);
    EveryReadyTaskRuns(states, events, Q(states[0], ReadyQ)[0]);
  }

  lemma CannotWaitThatLong(states: seq<State>, events: seq<(Event, Clock)>, x: nat)
    requires Run(states, events) && forall i :: 0 <= i < |states| ==> x in Q(states[i], ReadyQ)
    requires forall i :: 0 <= i < |events| ==> !events[i].0.Spawn?
    ensures Calls(states, events, |events|) < Potential(states[0], x)
  {
    WaitingIsBounded(states, events, x, |events|);
    NoSpawnNoDebt(states, events, x, |events|);
    PotentialPositive(states[|events|], x);
  }

  lemma LeavesInRun(states: seq<State>, events: seq<(Event, Clock)>, x: nat, i: nat)
    requires Run(states, events) && i < |events| && x in Q(states[i], ReadyQ) && x !in Q(states[i + 1], ReadyQ)
    ensures x < |states[i + 1].task| && (states[i + 1].current == x || states[i + 1].task[x].status == Exited)
  {
    NextInRun(states, events, i);
    LeavesByTurnOrKill(states[i], events[i].0, events[i].1, x);
  }

  lemma FirstAbsence(states: seq<State>, x: nat) returns (i: nat)
    requires states != [] && x in Q(states[0], ReadyQ)
    requires exists j :: 0 <= j < |states| && x !in Q(states[j], ReadyQ)
    ensures 0 < i < |states| && x in Q(states[i - 1], ReadyQ) && x !in Q(states[i], ReadyQ)
  {
    i := 1;
    while x in Q(states[i], ReadyQ)
      invariant 1 <= i < |states| && forall j :: 0 <= j < i ==> x in Q(states[j], ReadyQ)
      decreases |states| - i
    {
      i := i + 1;
    }
  }

  lemma {:induction false} NoSpawnNoDebt(states: seq<State>, events: seq<(Event, Clock)>, x: nat, n: nat)
    requires n <= |events| < |states|
    requires forall i :: 0 <= i < |events| ==> !events[i].0.Spawn?
    ensures Debt(states, events, x, n) == 0
  {
    if n == 0 {
    } else {
      NoSpawnNoDebt(states, events, x, n - 1);
    }
  }
}
