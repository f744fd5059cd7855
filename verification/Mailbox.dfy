/**
 The user-level mailbox: any number of tasks run mbox_send and mbox_recv on one box, and may
 be switched at every system call and every byte copied.  One semaphore counts free slots, one
 counts messages, and a mutex guards `ptr` and the slots.  A step of a task is the code from
 one point where it can be switched out to the next.  A down that had to wait is modelled as
 taking effect when it is granted.
 */
module Mailbox {
  import opened Basics

  const MAX_MBOX_LENGTH := 32
  const MAX_MESSAGE_LENGTH := 32

  type Message = seq<Byte>

  /** Where a task is in mbox_send or mbox_recv. */
  datatype Proc =
    | Idle
    | SendDown(msg: Message)
    | SendAcquire(msg: Message)
    | SendPtr(msg: Message)
    | SendCopy(msg: Message, k: nat)
    | SendRelease
    | SendUp
    | RecvDown
    | RecvAcquire
    | RecvCopy(buf: Message)
    | RecvPtr(buf: Message)
    | RecvRelease
    | RecvUp

  /**
   The box and its users.  `len` is the length every call passes.  `stack`, `sent` and
   `received` are the history: messages stored and not yet taken, messages stored so far,
   and buffers handed out so far.
   */
  datatype Box = Box(
    procs: seq<Proc>,
    len: nat,
    send: nat,
    recv: nat,
    owner: Option<nat>,
    ptr: nat,
    slot: seq<seq<Byte>>,
    stack: seq<Message>,
    sent: seq<Message>,
    received: seq<Message>)

  // ----------------------------------------------------------------- steps

  predicate CanGo(s: Box, i: nat) {
    && i < |s.procs| && s.ptr < |s.slot| == MAX_MBOX_LENGTH && |s.slot[s.ptr]| == MAX_MESSAGE_LENGTH
    && match s.procs[i]
       case Idle => false
       case SendDown(_) => s.send > 0
       case SendAcquire(_) => s.owner == None
       case SendCopy(msg, k) => k <= |msg| <= MAX_MESSAGE_LENGTH
       case RecvDown => s.recv > 0
       case RecvAcquire => s.owner == None
       case RecvCopy(buf) => |buf| <= s.len <= MAX_MESSAGE_LENGTH
       case RecvPtr(_) => s.stack != []
       case _ => true
  }

  /** One step of task i. */
  function Go(s: Box, i: nat): Box
    requires CanGo(s, i)
  {
    match s.procs[i]
    case SendDown(msg) => s.(send := s.send - 1, procs := s.procs[i := SendAcquire(msg)])
    case SendAcquire(msg) => s.(owner := Some(i), procs := s.procs[i := SendPtr(msg)])
    case SendPtr(msg) => s.(ptr := (s.ptr + 1) % MAX_MBOX_LENGTH, procs := s.procs[i := SendCopy(msg, 0)])
    case SendCopy(msg, k) =>
      if k < |msg| then
        s.(slot := s.slot[s.ptr := s.slot[s.ptr][k := msg[k]]], procs := s.procs[i := SendCopy(msg, k + 1)])
      else
        s.(stack := s.stack + [msg], sent := s.sent + [msg], procs := s.procs[i := SendRelease])
    case SendRelease => s.(owner := None, procs := s.procs[i := SendUp])
    case SendUp => s.(recv := s.recv + 1, procs := s.procs[i := Idle])
    case RecvDown => s.(recv := s.recv - 1, procs := s.procs[i := RecvAcquire])
    case RecvAcquire => s.(owner := Some(i), procs := s.procs[i := RecvCopy([])])
    case RecvCopy(buf) =>
      if |buf| < s.len then s.(procs := s.procs[i := RecvCopy(buf + [s.slot[s.ptr][|buf|]])])
      else s.(procs := s.procs[i := RecvPtr(buf)])
    case RecvPtr(buf) =>
      s.(ptr := (s.ptr + MAX_MBOX_LENGTH - 1) % MAX_MBOX_LENGTH, stack := s.stack[..|s.stack| - 1],
         received := s.received + [buf], procs := s.procs[i := RecvRelease])
    case RecvRelease => s.(owner := None, procs := s.procs[i := RecvUp])
    case RecvUp => s.(send := s.send + 1, procs := s.procs[i := Idle])
  }

  /** The next thing that happens: a task begins a call or takes a step. */
  datatype Action = BeginSend(task: nat, msg: Message) | BeginRecv(task: nat) | Proceed(task: nat)

  predicate Enabled(s: Box, a: Action) {
    && a.task < |s.procs|
    && match a
       case BeginSend(i, msg) => s.procs[i] == Idle && |msg| == s.len
       case BeginRecv(i) => s.procs[i] == Idle
       case Proceed(i) => CanGo(s, i)
  }

  function Step(s: Box, a: Action): Box
    requires Enabled(s, a)
  {
    match a
    case BeginSend(i, msg) => s.(procs := s.procs[i := SendDown(msg)])
    case BeginRecv(i) => s.(procs := s.procs[i := RecvDown])
    case Proceed(i) => Go(s, i)
  }

  /** mbox_open of a box nobody uses. */
  predicate Opened(s: Box) {
    && (forall i :: 0 <= i < |s.procs| ==> s.procs[i] == Idle)
    && s.len <= MAX_MESSAGE_LENGTH && s.send == MAX_MBOX_LENGTH && s.recv == 0 && s.owner == None && s.ptr == 0
    && |s.slot| == MAX_MBOX_LENGTH && (forall j :: 0 <= j < |s.slot| ==> |s.slot[j]| == MAX_MESSAGE_LENGTH)
    && s.stack == [] && s.sent == [] && s.received == []
  }

  // ----------------------------------------------------------------- counting tasks

  /** Which token a task in the middle of a call stands for. */
  datatype Role = Outside | Filling | Filled | Draining | Drained

  function RoleOf(p: Proc): Role {
    match p
    case SendAcquire(_) => Filling
    case SendPtr(_) => Filling
    case SendCopy(_, _) => Filling
    case SendRelease => Filled
    case SendUp => Filled
    case RecvAcquire => Draining
    case RecvCopy(_) => Draining
    case RecvPtr(_) => Draining
    case RecvRelease => Drained
    case RecvUp => Drained
    case _ => Outside
  }

  function Count(procs: seq<Proc>, r: Role): nat {
    if procs == [] then 0 else (if RoleOf(procs[0]) == r then 1 else 0) + Count(procs[1..], r)
  }

  lemma {:induction false} CountAfter(procs: seq<Proc>, i: nat, p: Proc, r: Role)
    requires i < |procs|
    ensures Count(procs[i := p], r) ==
      Count(procs, r) - (if RoleOf(procs[i]) == r then 1 else 0) + (if RoleOf(p) == r then 1 else 0)
    ensures RoleOf(procs[i]) == r ==> Count(procs, r) > 0
  {
    if i == 0 {
    } else {
      assert procs[i := p][1..] == procs[1..][i - 1 := p];
      CountAfter(procs[1..], i - 1, p, r);
    }
  }

  lemma {:induction false} CountNone(procs: seq<Proc>, r: Role)
    requires forall i :: 0 <= i < |procs| ==> RoleOf(procs[i]) != r
    ensures Count(procs, r) == 0
  {
    if procs == [] {
    } else {
      CountNone(procs[1..], r);
    }
  }

  // ----------------------------------------------------------------- the invariant

  predicate InLock(p: Proc) {
    p.SendPtr? || p.SendCopy? || p.SendRelease? || p.RecvCopy? || p.RecvPtr? || p.RecvRelease?
  }

  /** The slot of the j-th message on the stack. */
  function SlotOf(j: nat): nat {
    (j + 1) % MAX_MBOX_LENGTH
  }

  /** Free slots, messages and tokens held by tasks in the middle of a call. */
  ghost predicate TokensOk(s: Box) {
    && s.send + Count(s.procs, Filling) + Count(s.procs, Drained) == MAX_MBOX_LENGTH - |s.stack|
    && s.recv + Count(s.procs, Draining) + Count(s.procs, Filled) == |s.stack|
  }

  /** Every message not yet taken is in its slot, whole. */
  ghost predicate Stored(s: Box) {
    && s.len <= MAX_MESSAGE_LENGTH && |s.slot| == MAX_MBOX_LENGTH
    && (forall j :: 0 <= j < |s.slot| ==> |s.slot[j]| == MAX_MESSAGE_LENGTH)
    && (forall j :: 0 <= j < |s.stack| ==> |s.stack[j]| == s.len && s.slot[SlotOf(j)][..s.len] == s.stack[j])
  }

  /** A task is in its critical section exactly when it owns the lock. */
  ghost predicate Exclusive(s: Box) {
    && (forall i :: 0 <= i < |s.procs| && InLock(s.procs[i]) ==> s.owner == Some(i))
    && (s.owner.Some? ==> s.owner.value < |s.procs| && InLock(s.procs[s.owner.value]))
  }

  /** What a task has done so far is visible where the next step looks. */
  ghost predicate ProcOk(s: Box, i: nat)
    requires Stored(s) && i < |s.procs|
  {
    match s.procs[i]
    case SendDown(msg) => |msg| == s.len
    case SendAcquire(msg) => |msg| == s.len
    case SendPtr(msg) => |msg| == s.len
    case SendCopy(msg, k) => |msg| == s.len && k <= s.len && s.slot[SlotOf(|s.stack|)][..k] == msg[..k]
    case RecvCopy(buf) => s.stack != [] && buf <= s.stack[|s.stack| - 1]
    case RecvPtr(buf) => s.stack != [] && buf == s.stack[|s.stack| - 1]
    case _ => true
  }

  /** `ptr` names the top slot, or the slot being filled. */
  predicate PtrOk(s: Box) {
    s.ptr == (if s.owner.Some? && s.owner.value < |s.procs| && s.procs[s.owner.value].SendCopy? then SlotOf(|s.stack|)
              else |s.stack| % MAX_MBOX_LENGTH)
  }

  ghost predicate Safe(s: Box) {
    && TokensOk(s) && Stored(s) && Exclusive(s) && PtrOk(s)
    && (forall i :: 0 <= i < |s.procs| ==> ProcOk(s, i))
    && multiset(s.sent) == multiset(s.received) + multiset(s.stack)
  }

  lemma OpenedSafe(s: Box)
    requires Opened(s)
    ensures Safe(s)
  {
    CountNone(s.procs, Filling);
    CountNone(s.procs, Filled);
    CountNone(s.procs, Draining);
    CountNone(s.procs, Drained);
    assert s.slot[SlotOf(0)][..0] == [];
  }

  // ----------------------------------------------------------------- every step keeps it

  function NewProc(s: Box, a: Action): Proc
    requires Enabled(s, a)
  {
    Step(s, a).procs[a.task]
  }

  lemma StepChangesOne(s: Box, a: Action)
    requires Enabled(s, a)
    ensures |Step(s, a).procs| == |s.procs| && Step(s, a).procs == s.procs[a.task := NewProc(s, a)]
    ensures Step(s, a).len == s.len
  {
  }

  lemma StepTokens(s: Box, a: Action)
    requires Safe(s) && Enabled(s, a)
    ensures TokensOk(Step(s, a))
  {
    StepChangesOne(s, a);
    var p := NewProc(s, a);
    CountAfter(s.procs, a.task, p, Filling);
    CountAfter(s.procs, a.task, p, Filled);
    CountAfter(s.procs, a.task, p, Draining);
    CountAfter(s.procs, a.task, p, Drained);
  }

  lemma StepExclusive(s: Box, a: Action)
    requires Safe(s) && Enabled(s, a)
    ensures Exclusive(Step(s, a))
  {
    StepChangesOne(s, a);
    var r := Step(s, a);
    forall i | 0 <= i < |r.procs| && InLock(r.procs[i]) ensures r.owner == Some(i) {
      if i != a.task {
        assert InLock(s.procs[i]);
      }
    }
  }

  /** A task that fills a slot finds one that holds no message. */
  lemma FillingHasRoom(s: Box, i: nat)
    requires TokensOk(s) && i < |s.procs| && RoleOf(s.procs[i]) == Filling
    ensures |s.stack| < MAX_MBOX_LENGTH
  {
    CountAfter(s.procs, i, s.procs[i], Filling);
  }

  /** A task that takes a message finds one. */
  lemma DrainingHasMessage(s: Box, i: nat)
    requires TokensOk(s) && i < |s.procs| && RoleOf(s.procs[i]) == Draining
    ensures s.stack != []
  {
    CountAfter(s.procs, i, s.procs[i], Draining);
  }

  lemma SlotsDiffer(j: nat, k: nat)
    requires j < k < MAX_MBOX_LENGTH
    ensures SlotOf(j) != SlotOf(k)
  {
  }

  lemma StepStored(s: Box, a: Action)
    requires Safe(s) && Enabled(s, a)
    ensures Stored(Step(s, a))
  {
    var r := Step(s, a);
    if a.Proceed? {
      var i := a.task;
      assert ProcOk(s, i);
      if s.procs[i].SendCopy? {
        FillingHasRoom(s, i);
        assert s.owner == Some(i) && s.ptr == SlotOf(|s.stack|);
        forall j | 0 <= j < |s.stack| ensures r.slot[SlotOf(j)] == s.slot[SlotOf(j)] {
          SlotsDiffer(j, |s.stack|);
        }
      }
    }
  }

  lemma StepPtr(s: Box, a: Action)
    requires Safe(s) && Enabled(s, a)
    ensures PtrOk(Step(s, a))
  {
    var i, r := a.task, Step(s, a);
    StepChangesOne(s, a);
    if a.Proceed? && s.procs[i].RecvPtr? {
      DrainingHasMessage(s, i);
      assert s.owner == Some(i);
      PopPtr(|s.stack|);
    }
    if s.owner.Some? && s.owner.value != i {
      assert !InLock(s.procs[i]);
    }
  }

  lemma PopPtr(n: nat)
    requires n > 0
    ensures (n % MAX_MBOX_LENGTH + MAX_MBOX_LENGTH - 1) % MAX_MBOX_LENGTH == (n - 1) % MAX_MBOX_LENGTH
  {
  }

  lemma StepOther(s: Box, a: Action, j: nat)
    requires Safe(s) && Enabled(s, a) && j < |s.procs| && j != a.task && Stored(Step(s, a))
    ensures j < |Step(s, a).procs| && ProcOk(Step(s, a), j)
  {
    StepChangesOne(s, a);
    assert ProcOk(s, j);
    if InLock(s.procs[j]) {
      assert s.owner == Some(j) && !InLock(s.procs[a.task]);
    }
  }

  lemma StepSelf(s: Box, a: Action)
    requires Safe(s) && Enabled(s, a) && Stored(Step(s, a))
    ensures a.task < |Step(s, a).procs| && ProcOk(Step(s, a), a.task)
  {
    var i, r := a.task, Step(s, a);
    StepChangesOne(s, a);
    assert ProcOk(s, i);
    if a.Proceed? {
      match s.procs[i]
      case SendCopy(msg, k) =>
        FillingHasRoom(s, i);
        assert s.owner == Some(i) && s.ptr == SlotOf(|s.stack|);
        if k < |msg| {
          assert r.slot[s.ptr][..k + 1] == s.slot[s.ptr][..k] + [msg[k]];
          assert msg[..k + 1] == msg[..k] + [msg[k]];
        }
      case RecvCopy(buf) =>
        var top := s.stack[|s.stack| - 1];
        assert s.owner == Some(i) && s.ptr == SlotOf(|s.stack| - 1);
        if |buf| < s.len {
          assert s.slot[s.ptr][..s.len][|buf|] == top[|buf|];
        }
      case RecvAcquire => DrainingHasMessage(s, i);
      case _ =>
    }
  }

  lemma StepMessages(s: Box, a: Action)
    requires Safe(s) && Enabled(s, a)
    ensures var r := Step(s, a); multiset(r.sent) == multiset(r.received) + multiset(r.stack)
  {
    if a.Proceed? && s.procs[a.task].RecvPtr? {
      assert ProcOk(s, a.task);
      assert s.stack == s.stack[..|s.stack| - 1] + [s.stack[|s.stack| - 1]];
    }
  }

  lemma StepSafe(s: Box, a: Action)
    requires Safe(s) && Enabled(s, a)
    ensures Safe(Step(s, a))
  {
    StepTokens(s, a);
    StepStored(s, a);
    StepExclusive(s, a);
    StepPtr(s, a);
    StepMessages(s, a);
    forall j | 0 <= j < |Step(s, a).procs| ensures ProcOk(Step(s, a), j) {
      StepChangesOne(s, a);
      if j == a.task { StepSelf(s, a); } else { StepOther(s, a, j); }
    }
  }

  // ----------------------------------------------------------------- every run

  ghost predicate StepAt(states: seq<Box>, actions: seq<Action>, i: nat) {
    i < |actions| && i + 1 < |states| && Enabled(states[i], actions[i]) && states[i + 1] == Step(states[i], actions[i])
  }

  ghost predicate Run(states: seq<Box>, actions: seq<Action>) {
    |states| == |actions| + 1 && Opened(states[0]) && forall i :: 0 <= i < |actions| ==> StepAt(states, actions, i)
  }

  /**
   In every state of every run the occupancy is between 0 and 32, free slots, messages and
   tokens in flight total 32, every message not yet taken is whole in its slot, and the
   messages stored are those taken and those still there.
   */
  lemma {:induction false} RunSafe(states: seq<Box>, actions: seq<Action>, n: nat)
    requires Run(states, actions) && n < |states|
    ensures Safe(states[n])
    ensures var s := states[n];
      && |s.stack| <= MAX_MBOX_LENGTH
      && s.send + s.recv + Count(s.procs, Filling) + Count(s.procs, Filled)
         + Count(s.procs, Draining) + Count(s.procs, Drained) == MAX_MBOX_LENGTH
  {
    if n == 0 {
      OpenedSafe(states[0]);
    } else {
      RunSafe(states, actions, n - 1);
      assert StepAt(states, actions, n - 1);
      StepSafe(states[n - 1], actions[n - 1]);
    }
  }

  // ----------------------------------------------------------------- what the callers passed and got

  /** What a history gained. */
  function News(was: seq<Message>, now: seq<Message>): seq<Message> {
    if |was| < |now| then now[|was|..] else []
  }

  /** The message a caller passes with this action, if task i calls mbox_send. */
  function Passed(a: Action, i: nat): seq<Message> {
    match a
    case BeginSend(j, msg) => if i == j then [msg] else []
    case _ => []
  }

  /** The messages task i passed to mbox_send, in order. */
  function Asked(actions: seq<Action>, i: nat): seq<Message> {
    if actions == [] then [] else Asked(actions[..|actions| - 1], i) + Passed(actions[|actions| - 1], i)
  }

  /** The messages task i stored in the box, in order. */
  ghost function StoredBy(states: seq<Box>, actions: seq<Action>, i: nat, n: nat): seq<Message>
    requires n <= |actions| < |states|
  {
    if n == 0 then []
    else
      StoredBy(states, actions, i, n - 1)
      + if actions[n - 1].task == i then News(states[n - 1].sent, states[n].sent) else []
  }

  /** The message a task in mbox_send has still to store. */
  function Pending(p: Proc): seq<Message> {
    match p
    case SendDown(msg) => [msg]
    case SendAcquire(msg) => [msg]
    case SendPtr(msg) => [msg]
    case SendCopy(msg, _) => [msg]
    case _ => []
  }

  /** One step passes on what the task was given. */
  lemma StepStores(s: Box, a: Action, i: nat)
    requires Enabled(s, a) && i < |s.procs|
    ensures i < |Step(s, a).procs|
    ensures Pending(s.procs[i]) + Passed(a, i)
         == (if a.task == i then News(s.sent, Step(s, a).sent) else []) + Pending(Step(s, a).procs[i])
  {
    StepChangesOne(s, a);
    if a.task == i && a.Proceed? && s.procs[i].SendCopy? && s.procs[i].k == |s.procs[i].msg| {
      assert (s.sent + [s.procs[i].msg])[|s.sent|..] == [s.procs[i].msg];
    }
  }

  lemma Relink(a: seq<Message>, x: seq<Message>, p: seq<Message>, b: seq<Message>, y: seq<Message>, z: seq<Message>)
    requires a == x + p && p + b == y + z
    ensures a + b == (x + y) + z
  {
    calc {
      a + b;
      x + (p + b);
      x + (y + z);
      (x + y) + z;
    }
  }

  /**
   Every task, over every run: the messages it passed to mbox_send are, in order, those it has
   stored and at most one more that it is about to store.
   */
  lemma {:induction false} StoredAsPassed(states: seq<Box>, actions: seq<Action>, i: nat, n: nat)
    requires Run(states, actions) && n < |states| && i < |states[0].procs|
    ensures |states[n].procs| == |states[0].procs|
    ensures Asked(actions[..n], i) == StoredBy(states, actions, i, n) + Pending(states[n].procs[i])
  {
    if n == 0 {
    } else {
      StoredAsPassed(states, actions, i, n - 1);
      assert StepAt(states, actions, n - 1);
      var s, a := states[n - 1], actions[n - 1];
      StepChangesOne(s, a);
      StepStores(s, a, i);
      assert actions[..n][..n - 1] == actions[..n - 1];
      Relink(Asked(actions[..n - 1], i), StoredBy(states, actions, i, n - 1), Pending(s.procs[i]), Passed(a, i),
        if a.task == i then News(s.sent, states[n].sent) else [], Pending(states[n].procs[i]));
    }
  }

  /** How often task i called mbox_recv. */
  function Receives(actions: seq<Action>, i: nat): nat {
    if actions == [] then 0
    else Receives(actions[..|actions| - 1], i) + if actions[|actions| - 1] == BeginRecv(i) then 1 else 0
  }

  /** The buffers handed out to task i. */
  ghost function HandedTo(states: seq<Box>, actions: seq<Action>, i: nat, n: nat): seq<Message>
    requires n <= |actions| < |states|
  {
    if n == 0 then []
    else
      HandedTo(states, actions, i, n - 1)
      + if actions[n - 1].task == i then News(states[n - 1].received, states[n].received) else []
  }

  predicate Receiving(p: Proc) {
    p.RecvDown? || p.RecvAcquire? || p.RecvCopy? || p.RecvPtr?
  }

  /** Every task gets one buffer for each mbox_recv, the last one not before it has taken it. */
  lemma {:induction false} HandedAsAsked(states: seq<Box>, actions: seq<Action>, i: nat, n: nat)
    requires Run(states, actions) && n < |states| && i < |states[0].procs|
    ensures |states[n].procs| == |states[0].procs|
    ensures Receives(actions[..n], i)
         == |HandedTo(states, actions, i, n)| + if Receiving(states[n].procs[i]) then 1 else 0
  {
    if n == 0 {
    } else {
      HandedAsAsked(states, actions, i, n - 1);
      assert StepAt(states, actions, n - 1);
      StepChangesOne(states[n - 1], actions[n - 1]);
      assert actions[..n][..n - 1] == actions[..n - 1];
    }
  }

  // ----------------------------------------------------------------- last in, first out

  /** What happens to the box as its users see it. */
  datatype Op = Put(msg: Message) | Take(msg: Message)

  /**
   What a step does: store what its caller passed to its latest mbox_send, or hand out a
   buffer.  The message is the one of the call, not one found in the state of the box.
   */
  function OpsOf(s: Box, r: Box, asked: seq<Message>): seq<Op> {
    if |r.sent| > |s.sent| && asked != [] then [Put(asked[|asked| - 1])]
    else if |r.received| > |s.received| then [Take(r.received[|r.received| - 1])]
    else []
  }

  ghost function Ops(states: seq<Box>, actions: seq<Action>, n: nat): seq<Op>
    requires n <= |actions| < |states|
  {
    if n == 0 then []
    else
      Ops(states, actions, n - 1)
      + OpsOf(states[n - 1], states[n], Asked(actions[..n - 1], actions[n - 1].task))
  }

  /** The stack the operations leave, if each Take got the newest message not yet taken. */
  function Replay(ops: seq<Op>): Option<seq<Message>> {
    if ops == [] then Some([])
    else
      match (Replay(ops[..|ops| - 1]), ops[|ops| - 1])
      case (None, _) => None
      case (Some(stack), Put(msg)) => Some(stack + [msg])
      case (Some(stack), Take(msg)) =>
        if stack != [] && stack[|stack| - 1] == msg then Some(stack[..|stack| - 1]) else None
  }

  lemma ReplayOne(ops: seq<Op>, op: Op)
    ensures Replay(ops + [op]) ==
      match (Replay(ops), op)
      case (None, _) => None
      case (Some(stack), Put(msg)) => Some(stack + [msg])
      case (Some(stack), Take(msg)) =>
        if stack != [] && stack[|stack| - 1] == msg then Some(stack[..|stack| - 1]) else None
  {
    assert (ops + [op])[..|ops|] == ops;
  }

  /** The message passed last is the one still to be stored, if there is one. */
  predicate Latest(asked: seq<Message>, p: Proc) {
    Pending(p) != [] ==> asked != [] && asked[|asked| - 1] == Pending(p)[0]
  }

  lemma StepReplays(s: Box, a: Action, asked: seq<Message>, ops: seq<Op>)
    requires Safe(s) && Enabled(s, a) && Latest(asked, s.procs[a.task]) && Replay(ops) == Some(s.stack)
    ensures Replay(ops + OpsOf(s, Step(s, a), asked)) == Some(Step(s, a).stack)
  {
    assert ProcOk(s, a.task);
    var more := OpsOf(s, Step(s, a), asked);
    if more == [] {
      assert ops + more == ops;
    } else {
      ReplayOne(ops, more[0]);
    }
  }

  /** A task about to store a message stores the one it passed last. */
  lemma LatestIsPending(states: seq<Box>, actions: seq<Action>, n: nat)
    requires Run(states, actions) && n < |actions|
    ensures actions[n].task < |states[n].procs|
    ensures Latest(Asked(actions[..n], actions[n].task), states[n].procs[actions[n].task])
  {
    assert StepAt(states, actions, n);
    SameCrew(states, actions, n);
    StoredAsPassed(states, actions, actions[n].task, n);
  }

  ghost predicate Replayed(states: seq<Box>, actions: seq<Action>, n: nat) {
    n <= |actions| < |states| && Replay(Ops(states, actions, n)) == Some(states[n].stack)
  }

  lemma ReplayNext(states: seq<Box>, actions: seq<Action>, n: nat)
    requires Run(states, actions) && n < |actions| && Replayed(states, actions, n)
    ensures Replayed(states, actions, n + 1)
  {
    RunSafe(states, actions, n);
    LatestIsPending(states, actions, n);
    assert StepAt(states, actions, n);
    StepReplays(states[n], actions[n], Asked(actions[..n], actions[n].task), Ops(states, actions, n));
  }

  /**
   Last in, first out, over every run: each receive hands out, bit for bit, what the caller of
   the newest send not yet received passed.
   */
  lemma LastInFirstOut(states: seq<Box>, actions: seq<Action>, n: nat)
    requires Run(states, actions) && n < |states|
    ensures Replay(Ops(states, actions, n)) == Some(states[n].stack)
  {
    var i := 0;
    while i < n
      invariant 0 <= i <= n && Replayed(states, actions, i)
    {
      ReplayNext(states, actions, i);
      i := i + 1;
    }
  }

  lemma {:induction false} SameCrew(states: seq<Box>, actions: seq<Action>, n: nat)
    requires Run(states, actions) && n < |states|
    ensures |states[n].procs| == |states[0].procs|
  {
    if n == 0 {
    } else {
      SameCrew(states, actions, n - 1);
      assert StepAt(states, actions, n - 1);
      StepChangesOne(states[n - 1], actions[n - 1]);
    }
  }

  // ----------------------------------------------------------------- nobody waits without cause

  /** The task has to wait for a token or for the lock. */
  predicate Waits(s: Box, i: nat)
    requires i < |s.procs|
  {
    match s.procs[i]
    case SendDown(_) => s.send == 0
    case RecvDown => s.recv == 0
    case SendAcquire(_) => s.owner != None
    case RecvAcquire => s.owner != None
    case _ => false
  }

  /**
   In a safe state every task in a call can go on unless it has to wait: in particular, a
   receive never finds the box empty.
   */
  lemma GoesUnlessWaiting(s: Box, i: nat)
    requires Safe(s) && i < |s.procs| && s.procs[i] != Idle && !Waits(s, i)
    ensures CanGo(s, i)
  {
    assert ProcOk(s, i);
  }

  /** The task waits for room in a full box, or for a message from an empty one. */
  predicate WaitsForever(s: Box, p: Proc) {
    (p.SendDown? && |s.stack| == MAX_MBOX_LENGTH) || (p.RecvDown? && s.stack == [])
  }

  /**
   No deadlock: if no task in a call can go on, the lock is free and each of them waits for
   a token that does not exist, senders with 32 messages in the box and receivers with none.
   */
  lemma StuckOnlyWhenFullOrEmpty(s: Box)
    requires Safe(s) && forall i :: 0 <= i < |s.procs| && s.procs[i] != Idle ==> !CanGo(s, i)
    ensures s.owner == None
    ensures forall i :: 0 <= i < |s.procs| ==> s.procs[i] == Idle || WaitsForever(s, s.procs[i])
  {
    if s.owner.Some? {
      GoesUnlessWaiting(s, s.owner.value);
    }
    forall i | 0 <= i < |s.procs| ensures RoleOf(s.procs[i]) == Outside && (s.procs[i] == Idle || Waits(s, i)) {
      if s.procs[i] != Idle && !Waits(s, i) {
        GoesUnlessWaiting(s, i);
      }
    }
    CountNone(s.procs, Filling);
    CountNone(s.procs, Filled);
    CountNone(s.procs, Draining);
    CountNone(s.procs, Drained);
  }
}
