/**
 The intrusive doubly linked queue: a queue_t holds only the two end pointers, the links
 run through the prev/next fields of the process control blocks themselves.
 */
module TaskQueue {
  import opened Basics
  import opened KernelModel

  /** A process control block.  `resume` stands for the saved kernel context. */
  class Pcb {
    const id: nat
    var prev: Pcb?
    var next: Pcb?
    var status: Status
    var priority: int
    var deadline: nat
    var pid: nat
    var slots: seq<Option<nat>>
    var resume: Resume
    // The queue whose links run through this block.
    ghost var owner: Queue?

    /** Everything but the links, as the state machine records it. */
    ghost function Fields(): Task
      reads this`status, this`priority, this`deadline, this`pid, this`slots, this`resume
    {
      Task(status, priority, deadline, pid, slots, resume, None)
    }

    constructor (id: nat, status: Status)
      ensures this.id == id && this.status == status && prev == null && next == null && owner == null
      ensures priority == 0 && deadline == 0 && pid == 0
      ensures slots == [None, None, None, None, None, None, None, None, None, None] && resume == ToUser
    {
      this.id, this.status, prev, next, owner := id, status, null, null, null;
      priority, deadline, pid, slots, resume := 0, 0, 0,
        [None, None, None, None, None, None, None, None, None, None], ToUser;
    }

    /** The assignments of do_spawn. */
    method Fill(pid: nat)
      modifies this`status, this`priority, this`deadline, this`pid, this`slots, this`resume
      ensures Fields() == Task(Created, INITIAL_PRIORITY, 0, pid,
        [None, None, None, None, None, None, None, None, None, None], ToUser, None)
    {
      slots := [None, None, None, None, None, None, None, None, None, None];
      resume := ToUser;
      this.pid := pid;
      status := Created;
      priority := INITIAL_PRIORITY;
      deadline := 0;
    }
  }

  ghost function Nodes(items: seq<Pcb>): set<Pcb> {
    set x | x in items
  }

  /** The object a possibly null pointer points to. */
  ghost function Opt(x: Pcb?): set<Pcb> {
    if x == null then {} else {x}
  }

  class Queue {
    ghost const id: QueueId
    var head: Pcb?
    var tail: Pcb?
    ghost var items: seq<Pcb>

    ghost predicate Valid()
      reads this, Nodes(items)`prev, Nodes(items)`next, Nodes(items)`owner
    {
      && (items == [] ==> head == null && tail == null)
      && (items != [] ==> head == items[0] && tail == items[|items| - 1])
      && (forall k :: 0 <= k < |items| ==> Joined(k))
      && (forall j, k :: 0 <= j < k < |items| ==> items[j] != items[k])
    }

    /** The links of the k-th item lead to its neighbours. */
    ghost predicate Joined(k: nat)
      requires k < |items|
      reads this, Nodes(items)`prev, Nodes(items)`next, Nodes(items)`owner
    {
      && items[k] in Nodes(items) && items[k].owner == this
      && items[k].prev == (if k == 0 then null else items[k - 1])
      && items[k].next == (if k + 1 == |items| then null else items[k + 1])
    }

    /** queue_init */
    constructor (ghost id: QueueId)
      ensures Valid() && items == [] && this.id == id && head == null && tail == null
    {
      this.id := id;
      head, tail, items := null, null, [];
    }

    lemma NotLinked(item: Pcb)
      requires Valid() && item.owner == null
      ensures item !in items
    {
      forall k | 0 <= k < |items| ensures items[k] != item { assert Joined(k); }
    }

    /** queue_push */
    method Push(item: Pcb)
      requires Valid() && item.owner == null
      modifies this, item`prev, item`next, item`owner, Opt(tail)`next
      ensures Valid() && items == old(items) + [item] && item.owner == this
    {
      NotLinked(item);
      if head == null {
        head := item;
        tail := item;
        item.next := null;
        item.prev := null;
      } else {
        assert Joined(|items| - 1);
        tail.next := item;
        item.next := null;
        item.prev := tail;
        tail := item;
      }
      item.owner := this;
      items := items + [item];
      forall k | 0 <= k < |items| ensures Joined(k) {
        assert k + 1 < |items| ==> old(Joined(k));
      }
    }

    /** queue_dequeue */
    method Dequeue() returns (item: Pcb)
      requires Valid() && items != []
      modifies this, Opt(head)`prev, Opt(head)`next, Opt(head)`owner, Opt(if head == null then null else head.next)`prev
      ensures Valid() && item == old(items)[0] && items == old(items)[1..]
      ensures item.prev == null && item.next == null && item.owner == null
    {
      assert Joined(0);
      item := head;
      if item.next == null {
        head := null;
        tail := null;
      } else {
        assert Joined(1);
        head := head.next;
        head.prev := null;
      }
      item.prev := null;
      item.next := null;
      item.owner := null;
      items := items[1..];
      forall k | 0 <= k < |items| ensures Joined(k) {
        assert old(Joined(k + 1));
      }
    }

    /** queue_remove */
    method Remove(item: Pcb, ghost k: nat) returns (next: Pcb?)
      requires Valid() && k < |items| && items[k] == item
      modifies this, item`prev, item`next, item`owner, Opt(item.prev)`next, Opt(item.next)`prev
      ensures Valid() && items == old(items)[..k] + old(items)[k + 1..]
      ensures item.prev == null && item.next == null && item.owner == null
      ensures next == (if k + 1 == |old(items)| then null else old(items)[k + 1])
    {
      assert Joined(k) && (k > 0 ==> Joined(k - 1)) && (k + 1 < |items| ==> Joined(k + 1));
      next := item.next;
      if item == head && item == tail {
        head := null;
        tail := null;
      } else if item == head {
        head := item.next;
        head.prev := null;
      } else if item == tail {
        tail := item.prev;
        tail.next := null;
      } else {
        item.prev.next := item.next;
        item.next.prev := item.prev;
      }
      item.prev := null;
      item.next := null;
      item.owner := null;
      items := items[..k] + items[k + 1..];
      forall j | 0 <= j < |items| ensures Joined(j) {
        assert old(Joined(if j < k then j else j + 1));
      }
    }
  }
}
