/** The waiters of a road or a gate on the heap: an intrusive list of nodes, and for every walk that is going
on the saved pointer to the node that it resumes next. A resumed coroutine may link its node again at once,
into the list that the next walk will pop.

`Waiters` is what this implements: the nodes are there as tickets, in the same places. */
module WaitLists {

  import opened TaskQueue
  import opened Waiters
  import Tickets = Waiters

  /** The nodes of `chain` are those that parked with `tickets`. */
  ghost predicate AreNodes(nodes: seq<TaskNode>, chain: seq<TaskNode>, tickets: seq<nat>) {
    && |chain| == |tickets|
    && forall k :: 0 <= k < |chain| ==> tickets[k] < |nodes| && nodes[tickets[k]] == chain[k]
  }

  lemma MoreNodes(nodes: seq<TaskNode>, node: TaskNode, chain: seq<TaskNode>, tickets: seq<nat>)
    requires AreNodes(nodes, chain, tickets)
    ensures AreNodes(nodes + [node], chain, tickets)
  {
  }

  ghost predicate AllIn(chain: seq<TaskNode>, linked: set<TaskNode>) {
    forall node <- chain :: node in linked
  }

  /** What a walk still has to resume is linked to null from its saved pointer, and apart from the list. */
  ghost predicate WalkInv(nodes: seq<TaskNode>, linked: set<TaskNode>, contents: seq<TaskNode>,
                          top: TaskNode?, rest: seq<TaskNode>, tickets: seq<nat>)
    reads rest
  {
    AllIn(rest, linked) && Chained(top, rest) && Disjoint(contents, rest) && AreNodes(nodes, rest, tickets)
  }

  ghost predicate WalkAt(nodes: seq<TaskNode>, linked: set<TaskNode>, contents: seq<TaskNode>,
                         tops: seq<TaskNode?>, rests: seq<seq<TaskNode>>, walks: seq<Walk>, i: nat)
    reads linked
  {
    && i < |tops| == |rests| == |walks|
    && AllIn(rests[i], linked)
    && WalkInv(nodes, linked, contents, tops[i], rests[i], walks[i].rest)
  }

  /** All walks, which are apart from each other, too. */
  ghost predicate AllWalks(nodes: seq<TaskNode>, linked: set<TaskNode>, contents: seq<TaskNode>,
                           tops: seq<TaskNode?>, rests: seq<seq<TaskNode>>, walks: seq<Walk>)
    reads linked
  {
    && |tops| == |rests| == |walks|
    && (forall i {:trigger WalkAt(nodes, linked, contents, tops, rests, walks, i)} ::
      0 <= i < |rests| ==> WalkAt(nodes, linked, contents, tops, rests, walks, i))
    && AllDisjoint(rests)
  }

  ghost predicate AllDisjoint(rests: seq<seq<TaskNode>>) {
    forall i, j :: 0 <= i < j < |rests| ==> Disjoint(rests[i], rests[j])
  }

  lemma WithoutFirst(nodes: seq<TaskNode>, linked: set<TaskNode>, contents: seq<TaskNode>,
                     tops: seq<TaskNode?>, rests: seq<seq<TaskNode>>, walks: seq<Walk>)
    requires AllWalks(nodes, linked, contents, tops, rests, walks) && tops != []
    ensures AllWalks(nodes, linked, contents, tops[1..], rests[1..], walks[1..])
  {
    forall i | 0 <= i < |rests| - 1
      ensures WalkAt(nodes, linked, contents, tops[1..], rests[1..], walks[1..], i)
    {
      assert WalkAt(nodes, linked, contents, tops, rests, walks, i + 1);
    }
  }

  lemma WithFirst(nodes: seq<TaskNode>, linked: set<TaskNode>, contents: seq<TaskNode>,
                  tops: seq<TaskNode?>, rests: seq<seq<TaskNode>>, walks: seq<Walk>,
                  top: TaskNode?, rest: seq<TaskNode>, walk: Walk)
    requires AllWalks(nodes, linked, contents, tops, rests, walks)
    requires WalkInv(nodes, linked, contents, top, rest, walk.rest)
    requires forall j :: 0 <= j < |rests| ==> Disjoint(rest, rests[j])
    ensures AllWalks(nodes, linked, contents, [top] + tops, [rest] + rests, [walk] + walks)
  {
    forall i | 0 <= i < |rests| + 1
      ensures WalkAt(nodes, linked, contents, [top] + tops, [rest] + rests, [walk] + walks, i)
    {
      if i > 0 {
        assert WalkAt(nodes, linked, contents, tops, rests, walks, i - 1);
      }
    }
  }

  lemma WithoutNode(nodes: seq<TaskNode>, linked: set<TaskNode>, contents: seq<TaskNode>,
                    tops: seq<TaskNode?>, rests: seq<seq<TaskNode>>, walks: seq<Walk>, other: seq<TaskNode>, node: TaskNode)
    requires AllWalks(nodes, linked, contents, tops, rests, walks) && node in other
    requires forall j :: 0 <= j < |rests| ==> Disjoint(other, rests[j])
    ensures AllWalks(nodes, linked - {node}, contents, tops, rests, walks)
  {
    forall i | 0 <= i < |rests|
      ensures WalkAt(nodes, linked - {node}, contents, tops, rests, walks, i)
    {
      assert WalkAt(nodes, linked, contents, tops, rests, walks, i);
    }
  }

  /** The whole list is apart from all walks, so it can be popped. */
  lemma ContentsApart(nodes: seq<TaskNode>, linked: set<TaskNode>, contents: seq<TaskNode>,
                      tops: seq<TaskNode?>, rests: seq<seq<TaskNode>>, walks: seq<Walk>)
    requires AllWalks(nodes, linked, contents, tops, rests, walks)
    ensures forall j :: 0 <= j < |rests| ==> Disjoint(contents, rests[j])
    ensures AllWalks(nodes, linked, [], tops, rests, walks)
  {
    forall i | 0 <= i < |rests|
      ensures Disjoint(contents, rests[i]) && WalkAt(nodes, linked, [], tops, rests, walks, i)
    {
      assert WalkAt(nodes, linked, contents, tops, rests, walks, i);
    }
  }

  class WaitList {
    const queue: Queue
    var tops: seq<TaskNode?>           // of the walks, innermost first
    ghost var rests: seq<seq<TaskNode>>
    ghost var linked: set<TaskNode>    // all who wait
    ghost var nodes: seq<TaskNode>     // by ticket, who parked with it
    ghost var waiters: Waiters

    ghost predicate Valid()
      reads this, queue, queue.contents, linked
    {
      && queue.Valid()
      && AreNodes(nodes, queue.contents, waiters.queue)
      && AllIn(queue.contents, linked)
      && AllWalks(nodes, linked, queue.contents, tops, rests, waiters.walks)
      && (forall node <- linked :: !node.pill)
      && |nodes| == waiters.parked
      && Tickets.Valid(waiters)
    }

    constructor ()
      ensures Valid() && waiters == NOBODY && linked == {} && fresh(queue)
    {
      queue := new Queue();
      tops, rests, linked, nodes, waiters := [], [], {}, [], NOBODY;
    }

    /** Pushes a node that is in no list, be it a new one or one that was resumed before. */
    method Enqueue(node: TaskNode)
      requires Valid() && node !in linked && !node.pill
      modifies this, queue, node, if queue.first == null then null else queue.last
      ensures Valid() && waiters == Park(old(waiters)) && linked == old(linked) + {node}
      ensures nodes == old(nodes) + [node]
    {
      ParkKeepsValid(waiters);
      MoreNodes(nodes, node, queue.contents, waiters.queue);
      var _ := queue.Push(node);
      linked, nodes, waiters := linked + {node}, nodes + [node], Park(waiters);
      forall i | 0 <= i < |rests|
        ensures WalkAt(nodes, linked, queue.contents, tops, rests, waiters.walks, i)
      {
        assert old(WalkAt(nodes, linked, queue.contents, tops, rests, waiters.walks, i));
        MoreNodes(old(nodes), node, rests[i], waiters.walks[i].rest);
      }
    }

    /** Begins a walk over all who are in the list. */
    method Pop()
      requires Valid()
      modifies this, queue
      ensures Valid() && waiters == PopAll(old(waiters)) && linked == old(linked) && nodes == old(nodes)
    {
      PopAllKeepsValid(waiters);
      ContentsApart(nodes, linked, queue.contents, tops, rests, waiters.walks);
      var top, chain := queue.PopAll();
      WithFirst(nodes, linked, [], tops, rests, waiters.walks, top, chain, Walk(waiters.queue, waiters.parked));
      tops, rests, waiters := [top] + tops, [chain] + rests, PopAll(waiters);
    }

    /** The innermost walk takes its next node and saves the pointer behind it. */
    method Take() returns (node: TaskNode)
      requires Valid() && CanResume(waiters)
      modifies this
      ensures Valid() && waiters == Resume(old(waiters)) && nodes == old(nodes)
      ensures old(waiters).walks[0].rest[0] < |nodes| && node == nodes[old(waiters).walks[0].rest[0]]
      ensures old(node in linked) && linked == old(linked) - {node} && node == old(tops[0])
    {
      ResumeKeepsValid(waiters);
      assert WalkAt(nodes, linked, queue.contents, tops, rests, waiters.walks, 0);
      WithoutFirst(nodes, linked, queue.contents, tops, rests, waiters.walks);
      node := tops[0];
      WithoutNode(nodes, linked, queue.contents, tops[1..], rests[1..], waiters.walks[1..], rests[0], node);
      ghost var rest, walk := rests[0][1..], waiters.walks[0].(rest := waiters.walks[0].rest[1..]);
      linked := linked - {node};
      WithFirst(nodes, linked, queue.contents, tops[1..], rests[1..], waiters.walks[1..], node.next, rest, walk);
      tops, rests, waiters := [node.next] + tops[1..], [rest] + rests[1..], Resume(waiters);
    }

    /** One turn of a walk: the resumed node may hold anything afterwards, and be pushed again. */
    method ResumeOne() returns (node: TaskNode)
      requires Valid() && CanResume(waiters)
      modifies this, tops[0]
      ensures Valid() && waiters == Resume(old(waiters)) && nodes == old(nodes)
      ensures old(waiters).walks[0].rest[0] < |nodes| && node == nodes[old(waiters).walks[0].rest[0]]
      ensures old(node in linked) && linked == old(linked) - {node}
      ensures node.heard == old(node.heard + [node.status])
    {
      node := Take();
      node.Resume();
    }

    method EndWalk()
      requires Valid() && CanEnd(waiters)
      modifies this
      ensures Valid() && waiters == End(old(waiters)) && linked == old(linked) && nodes == old(nodes)
    {
      EndKeepsValid(waiters);
      WithoutFirst(nodes, linked, queue.contents, tops, rests, waiters.walks);
      tops, rests, waiters := tops[1..], rests[1..], End(waiters);
    }
  }
}
