/** The intrusive FIFO of task nodes: the queue of a worker thread, and of the waiters of a road or a gate.
The two loops that consume a popped list read a node only before they resume its task. */
module TaskQueue {

  datatype Status = Ok | Cancelled

  /** A node whose task is null is a dead pill. `heard` are the statuses its task was resumed with. */
  class TaskNode {
    var next: TaskNode?
    const pill: bool
    var status: Status
    ghost var heard: seq<Status>

    constructor (pill: bool)
      ensures next == null && this.pill == pill && status == Ok && heard == []
    {
      this.next, this.pill, this.status, this.heard := null, pill, Ok, [];
    }

    /** Runs the task. The node is invalid afterwards: its fields may hold anything. */
    method Resume()
      requires !pill
      modifies this
      ensures heard == old(heard + [status])
    {
      heard := heard + [status];
      next := *;
      status := *;
    }

    /** One turn of a worker's loop: reads the next node before resuming this one. */
    method Run() returns (top: TaskNode?)
      modifies this
      ensures top == old(next)
      ensures heard == old(heard) + if pill then [] else [old(status)]
    {
      top := next;
      if !pill {
        Resume();
      }
    }

    /** One turn of `cancel_tasks`: reads the next node before resuming this one. */
    method Cancel() returns (top: TaskNode?)
      modifies this
      ensures top == old(next)
      ensures heard == old(heard) + if pill then [] else [Cancelled]
    {
      status := Cancelled;
      top := next;
      if !pill {
        Resume();
      }
    }
  }

  /** Following `next` from `first` leads through exactly the nodes of `chain`, the last of which is linked
      to null. */
  ghost predicate Chained(first: TaskNode?, chain: seq<TaskNode>)
    reads chain
  {
    && (if chain == [] then first == null else first == chain[0])
    && LinkedFrom(chain, 0)
    && Distinct(chain)
  }

  ghost predicate LinkedFrom(chain: seq<TaskNode>, k: nat)
    reads chain
  {
    && (forall l :: k <= l < |chain| - 1 ==> chain[l].next == chain[l + 1])
    && (k < |chain| ==> chain[|chain| - 1].next == null)
  }

  ghost predicate Distinct(chain: seq<TaskNode>) {
    forall k, l :: 0 <= k < l < |chain| ==> chain[k] != chain[l]
  }

  ghost predicate Disjoint(a: seq<TaskNode>, b: seq<TaskNode>) {
    forall k, l :: 0 <= k < |a| && 0 <= l < |b| ==> a[k] != b[l]
  }

  lemma Suffix(top: TaskNode?, chain: seq<TaskNode>, k: nat)
    requires Distinct(chain) && LinkedFrom(chain, k) && k <= |chain|
    requires if k < |chain| then top == chain[k] else top == null
    ensures Chained(top, chain[k..])
  {
  }

  class Queue {
    var first: TaskNode?
    var last: TaskNode?  // of no meaning when `first` is null
    ghost var contents: seq<TaskNode>

    ghost predicate Valid()
      reads this, contents
    {
      && Chained(first, contents)
      && (contents != [] ==> last == contents[|contents| - 1])
    }

    constructor ()
      ensures Valid() && contents == []
    {
      first, last, contents := null, null, [];
    }

    predicate Empty()
      requires Valid()
      reads this, contents
      ensures Empty() == (contents == [])
    {
      first == null
    }

    /** Appends a list whose last node is known. A sleeping consumer is notified only when the queue was
        empty. */
    method PushList(first_: TaskNode, last_: TaskNode, ghost chain: seq<TaskNode>) returns (notify: bool)
      requires Valid() && Chained(first_, chain) && chain != [] && last_ == chain[|chain| - 1]
      requires Disjoint(contents, chain)
      modifies this, if first == null then null else last
      ensures Valid() && contents == old(contents) + chain
      ensures notify == (old(contents) == [])
      ensures forall node <- old(contents) :: node.heard == old(node.heard) && node.status == old(node.status)
    {
      ghost var n := |contents|;
      contents := contents + chain;
      if first != null {
        last.next := first_;
        last := last_;
        notify := false;
        assert forall k :: 0 <= k < n ==> contents[k].next == contents[k + 1];
        assert forall k :: 0 <= k < |chain| ==> contents[n + k] == chain[k];
      } else {
        first := first_;
        last := last_;
        notify := true;
      }
    }

    method Push(node: TaskNode) returns (notify: bool)
      requires Valid() && node !in contents
      modifies this, node, if first == null then null else last
      ensures Valid() && contents == old(contents) + [node]
      ensures notify == (old(contents) == [])
      ensures forall other <- old(contents) :: other.heard == old(other.heard) && other.status == old(other.status)
      ensures node.heard == old(node.heard) && node.status == old(node.status)
    {
      node.next := null;
      notify := PushList(node, node, [node]);
    }

    /** Appends a list whose last node has to be found. */
    method PushWalk(first_: TaskNode?, ghost chain: seq<TaskNode>) returns (notify: bool)
      requires Valid() && Chained(first_, chain) && Disjoint(contents, chain)
      modifies this, if first == null then null else last
      ensures Valid() && contents == old(contents) + chain
      ensures notify == (chain != [] && old(contents) == [])
    {
      if first_ == null {
        return false;
      }
      var last_ := first_;
      ghost var k := 0;
      while last_.next != null
        invariant 0 <= k < |chain| && last_ == chain[k]
        invariant k < |chain| - 1 ==> last_.next == chain[k + 1]
        decreases |chain| - k
      {
        last_ := last_.next;
        k := k + 1;
      }
      notify := PushList(first_, last_, chain);
    }

    /** Takes the whole list; `last` keeps pointing to a node that is no longer in the queue. */
    method PopAll() returns (top: TaskNode?, ghost chain: seq<TaskNode>)
      requires Valid()
      modifies this
      ensures Valid() && contents == []
      ensures chain == old(contents) && Chained(top, chain)
    {
      top, chain := first, contents;
      first, contents := null, [];
    }
  }

  // ----- consuming a popped list -----

  /** The nodes that have a task, in order. */
  function Tasks(chain: seq<TaskNode>): seq<TaskNode>
  {
    if chain == [] then [] else Tasks(chain[..|chain| - 1]) + if chain[|chain| - 1].pill then [] else [chain[|chain| - 1]]
  }

  lemma TasksNext(chain: seq<TaskNode>, k: nat)
    requires k < |chain|
    ensures Tasks(chain[..k + 1]) == Tasks(chain[..k]) + if chain[k].pill then [] else [chain[k]]
  {
    assert chain[..k + 1][..k] == chain[..k];
  }

  /** The tasks of a list are its nodes without the pills, each as often and as far in front as in the list. */
  lemma {:induction false} TasksInOrder(chain: seq<TaskNode>, k: nat)
    requires k < |chain| && !chain[k].pill
    ensures var before := |Tasks(chain[..k])|; before < |Tasks(chain)| && Tasks(chain)[before] == chain[k]
    decreases chain
  {
    var last := |chain| - 1;
    if k < last {
      TasksInOrder(chain[..last], k);
      assert chain[..last][..k] == chain[..k];
    }
  }

  lemma {:induction false} TasksOnce(chain: seq<TaskNode>)
    requires Distinct(chain)
    ensures forall node :: node in Tasks(chain) <==> node in chain && !node.pill
    ensures Distinct(Tasks(chain))
  {
    if chain != [] {
      var last := |chain| - 1;
      TasksOnce(chain[..last]);
      assert chain == chain[..last] + [chain[last]];
      assert chain[last] !in chain[..last];
    }
  }

  /** Resumes every task of the list, once, in order and as cancelled, though each node becomes invalid
      when it is resumed. */
  method CancelTasks(top: TaskNode?, ghost chain: seq<TaskNode>) returns (ghost resumed: seq<TaskNode>)
    requires Chained(top, chain)
    modifies chain
    ensures resumed == Tasks(chain)
    ensures forall k :: 0 <= k < |chain| ==> chain[k].heard == old(chain[k].heard) + if chain[k].pill then [] else [Cancelled]
  {
    var top := top;
    ghost var k := 0;
    resumed := [];
    while top != null
      invariant 0 <= k <= |chain| && (if k < |chain| then top == chain[k] else top == null)
      invariant LinkedFrom(chain, k)
      invariant forall l :: k <= l < |chain| ==> chain[l].heard == old(chain[l].heard)
      invariant forall l :: 0 <= l < k ==> chain[l].heard == old(chain[l].heard) + if chain[l].pill then [] else [Cancelled]
      invariant resumed == Tasks(chain[..k])
      decreases |chain| - k
    {
      resumed := resumed + if top.pill then [] else [top];
      top := top.Cancel();
      TasksNext(chain, k);
      k := k + 1;
    }
    assert chain[..k] == chain;
  }

  /** The inner loop of a worker: resumes the tasks before the first pill, once and in order, with the status
      they have; the list behind the pill is left to be cancelled. */
  method RunBatch(top: TaskNode, ghost chain: seq<TaskNode>)
    returns (pill: bool, rest: TaskNode?, ghost resumed: seq<TaskNode>, ghost left: seq<TaskNode>)
    requires Chained(top, chain)
    modifies chain
    ensures |resumed| <= |chain| && resumed == chain[..|resumed|]
    ensures forall k :: 0 <= k < |resumed| ==> !chain[k].pill
    ensures pill == (|resumed| < |chain|) && (pill ==> chain[|resumed|].pill)
    ensures left == (if pill then chain[|resumed| + 1..] else []) && Chained(rest, left)
    ensures forall k :: 0 <= k < |resumed| ==> chain[k].heard == old(chain[k].heard) + [old(chain[k].status)]
    ensures forall k :: |resumed| <= k < |chain| ==> chain[k].heard == old(chain[k].heard)
  {
    pill, rest, resumed := false, top, [];
    ghost var k := 0;
    while rest != null
      invariant !pill
      invariant 0 <= k <= |chain| && resumed == chain[..k]
      invariant forall l :: 0 <= l < k ==> !chain[l].pill
      invariant if k < |chain| then rest == chain[k] else rest == null
      invariant LinkedFrom(chain, k)
      invariant forall l :: 0 <= l < k ==> chain[l].heard == old(chain[l].heard) + [old(chain[l].status)]
      invariant forall l :: k <= l < |chain| ==>
        chain[l].heard == old(chain[l].heard) && chain[l].status == old(chain[l].status)
      decreases |chain| - k
    {
      var node := rest;
      rest := rest.Run();
      pill := node.pill;
      if pill {
        break;
      }
      resumed, k := resumed + [node], k + 1;
    }
    left := if pill then chain[k + 1..] else [];
    if pill {
      Suffix(rest, chain, k + 1);
    }
  }
}
