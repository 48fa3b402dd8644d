/** The shutdown protocol of the thread pool, as interleaved atomic steps: pushes from anywhere, the worker
of each queue, any number of requests to stop, `wait_stop` and the destructor.

Lists of nodes are sequences here (`TaskQueue` shows that the linked lists are); a step is atomic where the
source holds the mutex of a queue, or handles one node. A node is dead once its task was resumed, and a dead
pill once the coroutine or the destructor that it lives in is gone. */
module ThreadPool {

  import opened Wrappers
  import opened TaskQueue

  /** Request `k` to stop pushes its pill and itself; the destructor uses one pill for all queues. */
  datatype Node = Task(id: nat) | StopPill(id: nat) | StopNode(id: nat) | SharedPill

  datatype Worker =
    | Awake                      // about to look into the queue
    | Asleep(notified: bool)     // waiting for the queue to become not empty
    | Running(batch: seq<Node>)
    | Cancelling(batch: seq<Node>)
    | Exited

  datatype Event = Event(node: Node, status: Status)

  /** `pushed` is all that was ever pushed, `done` what was consumed of it, and `log` the tasks resumed. */
  datatype Queue = Queue(items: seq<Node>, worker: Worker, joinable: bool,
                         pushed: seq<Node>, done: seq<Node>, log: seq<Event>)

  /** Who joins the threads and drains the queues; a missing batch is about to be popped. */
  datatype Closer =
    | Nobody
    | WaitJoin(i: nat)
    | WaitDrain(i: nat, batch: Option<seq<Node>>)
    | Loop(i: nat)
    | Join(i: nat)
    | Drain(i: nat, batch: Option<seq<Node>>)
    | Final(i: nat, batch: Option<seq<Node>>)
    | Gone

  datatype State = State(queues: seq<Queue>, closer: Closer, freed: set<Node>, unused: nat)

  predicate IsPill(node: Node) {
    node.StopPill? || node.SharedPill?
  }

  // ----- steps -----

  datatype Move = Push(q: nat) | RequestStop(q: nat) | Work(q: nat) | WaitStop | Destroy | Close

  /** The contract of the callers: nothing is scheduled on a queue after its final drain, and one caller at a
      time waits or destroys. A join blocks until the worker has exited. */
  predicate Allowed(s: State, move: Move) {
    match move
    case Push(q) => q < |s.queues| && !FinallyDrained(s, q)
    case RequestStop(q) => q < |s.queues| && !FinallyDrained(s, q)
    case Work(q) => q < |s.queues| && !s.queues[q].worker.Exited?
    case WaitStop => s.closer.Nobody?
    case Destroy => s.closer.Nobody?
    case Close =>
      match s.closer
      case Nobody => false
      case Gone => false
      case WaitJoin(i) => i < |s.queues| && s.queues[i].joinable ==> s.queues[i].worker.Exited?
      case Join(i) => i < |s.queues| && s.queues[i].worker.Exited?
      case _ => true
  }

  predicate FinallyDrained(s: State, q: nat) {
    s.closer.Gone? || (s.closer.Final? && (q < s.closer.i || (q == s.closer.i && s.closer.batch.Some?)))
  }

  /** `None` if a node is read or written that is dead, or pushed while it is still linked. */
  ghost function Step(s: State, move: Move): Option<State>
    requires Allowed(s, move)
  {
    match move
    case Push(q) => PushOnto(s.(unused := s.unused + 1), q, [Task(s.unused)])
    case RequestStop(q) => PushOnto(s.(unused := s.unused + 1), q, [StopPill(s.unused), StopNode(s.unused)])
    case Work(q) => WorkStep(s, q)
    case WaitStop => Some(s.(closer := WaitJoin(0)))
    case Destroy => Some(s.(closer := Loop(0)))
    case Close => CloseStep(s)
  }

  ghost function PushOnto(s: State, q: nat, nodes: seq<Node>): Option<State>
    requires q < |s.queues|
  {
    var queue := s.queues[q];
    if (queue.items != [] && queue.items[|queue.items| - 1] in s.freed)
       || exists node, r :: node in nodes && 0 <= r < |s.queues| && node in Flight(s, r) then None
    else
      var worker := if queue.items == [] && queue.worker.Asleep? then Asleep(true) else queue.worker;
      Some(SetQueue(s, q, queue.(items := queue.items + nodes, pushed := queue.pushed + nodes, worker := worker)))
  }

  function SetQueue(s: State, q: nat, queue: Queue): State
    requires q < |s.queues|
  {
    s.(queues := s.queues[q := queue])
  }

  /** The default worker job. */
  ghost function WorkStep(s: State, q: nat): Option<State>
    requires q < |s.queues| && !s.queues[q].worker.Exited?
  {
    var queue := s.queues[q];
    match queue.worker
    case Awake =>
      if queue.items == [] then Some(SetQueue(s, q, queue.(worker := Asleep(false))))
      else Some(SetQueue(s, q, queue.(worker := Running(queue.items), items := [])))
    case Asleep(_) => Some(SetQueue(s, q, queue.(worker := Awake)))
    case Running(batch) =>
      if batch == [] then Some(SetQueue(s, q, queue.(worker := Awake)))
      else if batch[0] in s.freed then None
      else if IsPill(batch[0]) then Some(Consume(SetQueue(s, q, queue.(worker := Cancelling(batch[1..]))), q, batch[0], Ok))
      else Some(Consume(SetQueue(s, q, queue.(worker := Running(batch[1..]))), q, batch[0], Ok))
    case Cancelling(batch) =>
      if batch == [] then Some(SetQueue(s, q, queue.(worker := Exited)))
      else if batch[0] in s.freed then None
      else Some(Consume(SetQueue(s, q, queue.(worker := Cancelling(batch[1..]))), q, batch[0], Cancelled))
    case Exited => None
  }

  /** A pill is only read; the task of any other node is resumed, which ends the node's life and, for a
      request to stop, that of its pill. */
  ghost function Consume(s: State, q: nat, node: Node, status: Status): State
    requires q < |s.queues|
  {
    var queue := s.queues[q].(done := s.queues[q].done + [node]);
    if IsPill(node) then SetQueue(s, q, queue)
    else SetQueue(s, q, queue.(log := queue.log + [Event(node, status)])).(freed := s.freed + Frees(node))
  }

  function Frees(node: Node): set<Node> {
    if node.StopNode? then {node, StopPill(node.id)} else {node}
  }

  ghost function CloseStep(s: State): Option<State>
    requires Allowed(s, Close)
  {
    var n := |s.queues|;
    match s.closer
    case WaitJoin(i) =>
      if i >= n then Some(s.(closer := WaitDrain(0, None)))
      else Some(SetQueue(s, i, s.queues[i].(joinable := false)).(closer := WaitJoin(i + 1)))
    case WaitDrain(i, batch) =>
      if i >= n then Some(s.(closer := Nobody))
      else if batch == Some([]) then Some(s.(closer := WaitDrain(i + 1, None)))
      else DrainStep(s, i, batch)
    case Loop(i) =>
      if i >= n then Some(s.(closer := Final(0, None)))
      else if !s.queues[i].joinable then Some(s.(closer := Loop(i + 1)))
      else PushOnto(s.(closer := Join(i)), i, [SharedPill])
    case Join(i) => Some(SetQueue(s, i, s.queues[i].(joinable := false)).(closer := Drain(i, None)))
    case Drain(i, batch) =>
      if i >= n || batch == Some([]) then Some(s.(closer := Loop(i + 1)))
      else DrainStep(s, i, batch)
    case Final(i, batch) =>
      if i >= n then Some(s.(closer := Gone, freed := s.freed + {SharedPill}))
      else if batch == Some([]) then Some(s.(closer := Final(i + 1, None)))
      else DrainStep(s, i, batch)
  }

  /** Pops all, or cancels one node of what was popped. */
  ghost function DrainStep(s: State, i: nat, batch: Option<seq<Node>>): Option<State>
    requires i < |s.queues| && (s.closer.WaitDrain? || s.closer.Drain? || s.closer.Final?) && batch != Some([])
  {
    match batch
    case None => Some(SetQueue(s, i, s.queues[i].(items := [])).(closer := WithBatch(s.closer, Some(s.queues[i].items))))
    case Some(nodes) =>
      if nodes[0] in s.freed then None
      else Some(Consume(s.(closer := WithBatch(s.closer, Some(nodes[1..]))), i, nodes[0], Cancelled))
  }

  function WithBatch(closer: Closer, batch: Option<seq<Node>>): Closer {
    match closer
    case WaitDrain(i, _) => WaitDrain(i, batch)
    case Drain(i, _) => Drain(i, batch)
    case Final(i, _) => Final(i, batch)
    case _ => closer
  }

  // ----- what a queue owes -----

  /** The nodes in the hands of the worker or the closer, and then those in the queue. */
  function Flight(s: State, q: nat): seq<Node>
    requires q < |s.queues|
  {
    WorkerBatch(s.queues[q].worker) + CloserBatch(s.closer, q) + s.queues[q].items
  }

  function WorkerBatch(worker: Worker): seq<Node> {
    if worker.Running? || worker.Cancelling? then worker.batch else []
  }

  function CloserBatch(closer: Closer, q: nat): seq<Node> {
    if (closer.WaitDrain? || closer.Drain? || closer.Final?) && closer.i == q && closer.batch.Some? then closer.batch.value
    else []
  }

  predicate Stopping(worker: Worker) {
    worker.Cancelling? || worker.Exited?
  }

  ghost predicate HasPill(nodes: seq<Node>) {
    exists node :: node in nodes && IsPill(node)
  }

  /** What pushing `nodes` promises: each task resumed once, in push order, as cancelled behind the first
      pill. */
  ghost function Resumed(nodes: seq<Node>): seq<Event> {
    if nodes == [] then []
    else
      var before, node := nodes[..|nodes| - 1], nodes[|nodes| - 1];
      Resumed(before) + if IsPill(node) then [] else [Event(node, if HasPill(before) then Cancelled else Ok)]
  }

  /** The pill of a request to stop is directly in front of the request. */
  ghost predicate Paired(nodes: seq<Node>) {
    && (forall i :: 0 <= i < |nodes| && nodes[i].StopPill? ==> i + 1 < |nodes| && nodes[i + 1] == StopNode(nodes[i].id))
    && (forall i :: 0 <= i < |nodes| && nodes[i].StopNode? ==> 0 < i && nodes[i - 1] == StopPill(nodes[i].id))
  }

  // ----- the invariant -----

  ghost predicate Inv(s: State) {
    && CloserInv(s)
    && (forall q :: 0 <= q < |s.queues| ==> QueueInv(s.queues[q]) && PillInv(s, q, s.queues[q]) && Accounted(s, q))
    && NodesInv(s)
  }

  ghost predicate QueueInv(queue: Queue) {
    && queue.log == Resumed(queue.done)
    && (HasPill(queue.done) <==> Stopping(queue.worker))
    && (!queue.joinable ==> queue.worker.Exited?)
    && (queue.worker == Asleep(false) ==> queue.items == [])
    && Paired(queue.pushed)
  }

  ghost predicate Accounted(s: State, q: nat)
    requires q < |s.queues|
  {
    s.queues[q].pushed == s.queues[q].done + Flight(s, q)
  }

  /** Whose the shared pill is, and which queues are empty for good. */
  ghost predicate PillInv(s: State, q: nat, queue: Queue)
    requires q < |s.queues|
  {
    && (SharedPill in Flight(s, q) ==> (s.closer.Join? || s.closer.Drain?) && s.closer.i == q)
    && (s.closer.Join? && s.closer.i == q && !Stopping(queue.worker) ==> SharedPill in Flight(s, q))
    && (s.closer.Drain? && s.closer.i == q && s.closer.batch.Some? ==> SharedPill !in queue.items)
    && (FinallyDrained(s, q) ==> queue.items == [])
  }

  /** Threads are joined in order, and only joined threads' queues are drained. */
  ghost predicate CloserInv(s: State) {
    match s.closer
    case Nobody => true
    case WaitJoin(i) => JoinedUpTo(s, i)
    case Loop(i) => JoinedUpTo(s, i)
    case Join(i) => JoinedUpTo(s, i) && i < |s.queues|
    case Drain(i, _) => JoinedUpTo(s, i + 1) && i < |s.queues|
    case WaitDrain(_, _) => JoinedUpTo(s, |s.queues|)
    case Final(_, _) => JoinedUpTo(s, |s.queues|)
    case Gone => JoinedUpTo(s, |s.queues|)
  }

  ghost predicate JoinedUpTo(s: State, i: nat) {
    forall q :: 0 <= q < |s.queues| && q < i ==> !s.queues[q].joinable
  }

  /** Node number `i` that queue `q` owes. */
  ghost predicate Holds(s: State, q: nat, i: nat, node: Node) {
    q < |s.queues| && i < |Flight(s, q)| && Flight(s, q)[i] == node
  }

  /** No node is linked twice, and every linked node is alive. */
  ghost predicate NodesInv(s: State) {
    && (forall q: nat, i: nat, node {:trigger Holds(s, q, i, node)} :: Holds(s, q, i, node) ==> Alive(s, node))
    && (forall q: nat, r: nat, i: nat, j: nat, node {:trigger Holds(s, q, i, node), Holds(s, r, j, node)} ::
      Holds(s, q, i, node) && Holds(s, r, j, node) ==> q == r && i == j)
    && (forall node :: node in s.freed ==> Known(s, node) && (node.SharedPill? ==> s.closer.Gone?))
  }

  predicate Alive(s: State, node: Node) {
    node !in s.freed && Known(s, node)
  }

  predicate Known(s: State, node: Node) {
    node.SharedPill? || node.id < s.unused
  }

  // ----- nodes -----

  ghost predicate OtherFlights(s: State, s': State, q: nat) {
    && |s'.queues| == |s.queues|
    && forall r :: 0 <= r < |s.queues| && r != q ==> s'.queues[r] == s.queues[r] && Flight(s', r) == Flight(s, r)
  }

  lemma SameFlights(s: State, s': State, q: nat)
    requires NodesInv(s) && OtherFlights(s, s', q)
    requires q < |s.queues| ==> Flight(s', q) == Flight(s, q)
    requires s'.unused == s.unused && (s.closer.Gone? ==> s'.closer.Gone?)
    requires s'.freed == s.freed || (s'.freed == s.freed + {SharedPill} && s'.closer.Gone?
               && forall r :: 0 <= r < |s.queues| ==> SharedPill !in Flight(s, r))
    ensures NodesInv(s')
  {
    forall r: nat, i: nat, node | Holds(s', r, i, node)
      ensures Holds(s, r, i, node) && (node.SharedPill? ==> node in Flight(s, r))
    {
      assert Flight(s', r) == Flight(s, r);
    }
  }

  /** A linked pill of a request to stop is directly in front of the linked request. */
  lemma PillThenRequest(s: State, r: nat, i: nat)
    requires Inv(s) && r < |s.queues| && i < |Flight(s, r)| && Flight(s, r)[i].StopPill?
    ensures i + 1 < |Flight(s, r)| && Flight(s, r)[i + 1] == StopNode(Flight(s, r)[i].id)
  {
    var pushed, n := s.queues[r].pushed, |s.queues[r].done|;
    assert Accounted(s, r) && QueueInv(s.queues[r]);
    assert pushed[n + i] == Flight(s, r)[i];
    assert pushed[n + i + 1] == Flight(s, r)[i + 1];
  }

  /** So when a request is resumed, which frees its pill, the pill is not linked any more. */
  lemma PillOfHeadIsGone(s: State, q: nat, r: nat)
    requires Inv(s) && q < |s.queues| && r < |s.queues| && Flight(s, q) != [] && Flight(s, q)[0].StopNode?
    ensures StopPill(Flight(s, q)[0].id) !in Flight(s, r)
  {
    forall i | 0 <= i < |Flight(s, r)| && Flight(s, r)[i].StopPill?
      ensures Flight(s, r)[i].id != Flight(s, q)[0].id
    {
      PillThenRequest(s, r, i);
      assert Holds(s, r, i + 1, Flight(s, r)[i + 1]) && Holds(s, q, 0, Flight(s, q)[0]);
    }
  }

  lemma ConsumedOrigin(s: State, s': State, q: nat, r: nat, i: nat, node: Node)
    requires OtherFlights(s, s', q) && q < |s.queues| && Flight(s, q) != [] && Flight(s', q) == Flight(s, q)[1..]
    requires Holds(s', r, i, node)
    ensures Holds(s, r, if r == q then i + 1 else i, node)
  {
  }

  lemma BehindHeadIsAlive(s: State, q: nat, r: nat, i: nat, node: Node)
    requires Inv(s) && q < |s.queues| && Flight(s, q) != [] && Holds(s, r, i, node) && (r == q ==> i > 0)
    ensures Alive(s, node) && node !in Frees(Flight(s, q)[0])
  {
    var head := Flight(s, q)[0];
    assert Holds(s, q, 0, head) && node in Flight(s, r);
    if head.StopNode? {
      PillOfHeadIsGone(s, q, r);
    }
  }

  lemma ConsumedFreed(s: State, s': State, q: nat)
    requires Inv(s) && q < |s.queues| && Flight(s, q) != []
    requires s'.unused == s.unused && (s.closer.Gone? ==> s'.closer.Gone?)
    requires var head := Flight(s, q)[0]; s'.freed == s.freed + if IsPill(head) then {} else Frees(head)
    ensures forall node :: node in s'.freed ==> Known(s', node) && (node.SharedPill? ==> s'.closer.Gone?)
  {
    assert Holds(s, q, 0, Flight(s, q)[0]);
  }

  lemma ConsumedFlight(s: State, s': State, q: nat)
    requires Inv(s) && OtherFlights(s, s', q) && q < |s.queues| && Flight(s, q) != [] && Flight(s', q) == Flight(s, q)[1..]
    requires s'.unused == s.unused && (s.closer.Gone? ==> s'.closer.Gone?)
    requires var head := Flight(s, q)[0]; s'.freed == s.freed + if IsPill(head) then {} else Frees(head)
    ensures NodesInv(s')
  {
    ConsumedFreed(s, s', q);
    forall r: nat, i: nat, node | Holds(s', r, i, node)
      ensures Holds(s, r, if r == q then i + 1 else i, node) && Alive(s', node)
    {
      ConsumedOrigin(s, s', q, r, i, node);
      BehindHeadIsAlive(s, q, r, if r == q then i + 1 else i, node);
    }
  }

  /** Nodes that are new, or the shared pill when it is nowhere linked. */
  ghost predicate CanPush(s: State, nodes: seq<Node>) {
    || nodes == [Task(s.unused)]
    || nodes == [StopPill(s.unused), StopNode(s.unused)]
    || (nodes == [SharedPill] && !s.closer.Gone? && forall r :: 0 <= r < |s.queues| ==> SharedPill !in Flight(s, r))
  }

  lemma PushedOrigin(s: State, s': State, q: nat, nodes: seq<Node>, r: nat, i: nat, node: Node)
    requires OtherFlights(s, s', q) && q < |s.queues| && Flight(s', q) == Flight(s, q) + nodes && Holds(s', r, i, node)
    ensures if r == q && i >= |Flight(s, q)| then i - |Flight(s, q)| < |nodes| && node == nodes[i - |Flight(s, q)|]
            else Holds(s, r, i, node)
  {
  }

  lemma OldIsNotNew(s: State, nodes: seq<Node>, r: nat, i: nat, node: Node)
    requires NodesInv(s) && CanPush(s, nodes) && Holds(s, r, i, node)
    ensures node !in nodes && Alive(s, node)
  {
    assert node in Flight(s, r);
  }

  lemma NewIsAlive(s: State, s': State, nodes: seq<Node>, node: Node)
    requires NodesInv(s) && CanPush(s, nodes) && node in nodes && s'.freed == s.freed
    requires s'.unused == s.unused + if nodes == [SharedPill] then 0 else 1
    ensures Alive(s', node)
  {
  }

  lemma PushedFlight(s: State, s': State, q: nat, nodes: seq<Node>)
    requires NodesInv(s) && OtherFlights(s, s', q) && q < |s.queues| && CanPush(s, nodes)
    requires Flight(s', q) == Flight(s, q) + nodes && s'.freed == s.freed
    requires s'.unused == s.unused + if nodes == [SharedPill] then 0 else 1
    requires s.closer.Gone? ==> s'.closer.Gone?
    ensures NodesInv(s')
  {
    var n := |Flight(s, q)|;
    forall r: nat, i: nat, node | Holds(s', r, i, node)
      ensures Alive(s', node)
      ensures if r == q && i >= n then i - n < |nodes| && node == nodes[i - n] else Holds(s, r, i, node) && node !in nodes
    {
      PushedOrigin(s, s', q, nodes, r, i, node);
      if r == q && i >= n {
        NewIsAlive(s, s', nodes, node);
      } else {
        OldIsNotNew(s, nodes, r, i, node);
      }
    }
    assert forall k, l :: 0 <= k < |nodes| && 0 <= l < |nodes| && nodes[k] == nodes[l] ==> k == l;
  }

  // ----- every step keeps the invariant -----

  /** What is left to check once the nodes are accounted for. */
  lemma OneQueueChanged(s: State, s': State, q: nat)
    requires Inv(s) && NodesInv(s') && CloserInv(s') && OtherFlights(s, s', q) && s'.closer == s.closer
    requires q < |s.queues| && QueueInv(s'.queues[q]) && PillInv(s', q, s'.queues[q]) && Accounted(s', q)
    ensures Inv(s')
  {
    forall r | 0 <= r < |s'.queues|
      ensures QueueInv(s'.queues[r]) && PillInv(s', r, s'.queues[r]) && Accounted(s', r)
    {
      if r != q {
        assert QueueInv(s.queues[r]) && PillInv(s, r, s.queues[r]) && Accounted(s, r);
      }
    }
  }

  lemma ResumedNext(done: seq<Node>, node: Node)
    ensures Resumed(done + [node])
         == Resumed(done) + if IsPill(node) then [] else [Event(node, if HasPill(done) then Cancelled else Ok)]
    ensures HasPill(done + [node]) <==> HasPill(done) || IsPill(node)
  {
    assert (done + [node])[..|done|] == done;
    if HasPill(done) {
      var pill :| pill in done && IsPill(pill);
      assert pill in done + [node];
    }
    if IsPill(node) {
      assert node in done + [node];
    }
  }

  /** The worker of an open queue works alone. */
  lemma WorkerIsAlone(s: State, q: nat)
    requires Inv(s) && q < |s.queues| && !s.queues[q].worker.Exited?
    ensures CloserBatch(s.closer, q) == [] && s.queues[q].joinable && !s.closer.Gone?
    ensures Flight(s, q) == WorkerBatch(s.queues[q].worker) + s.queues[q].items
    ensures !FinallyDrained(s, q) && (s.closer.Drain? ==> s.closer.i != q)
  {
    assert QueueInv(s.queues[q]);
  }

  lemma WorkIsSafe(s: State, q: nat)
    requires Inv(s) && Allowed(s, Work(q))
    ensures WorkStep(s, q).Some?
  {
    WorkerIsAlone(s, q);
    var batch := WorkerBatch(s.queues[q].worker);
    if batch != [] {
      assert Holds(s, q, 0, batch[0]);
    }
  }

  lemma WorkKeepsInv(s: State, q: nat, s': State)
    requires Inv(s) && Allowed(s, Work(q)) && WorkStep(s, q) == Some(s')
    ensures Inv(s')
  {
    WorkerIsAlone(s, q);
    if WorkerBatch(s.queues[q].worker) != [] {
      WorkConsumes(s, q, s');
    } else {
      WorkWaits(s, q, s');
    }
  }

  /** The worker looked, slept, woke or popped: the nodes it owes stay the same. */
  ghost predicate Waited(s: State, s': State, q: nat)
    requires q < |s.queues|
  {
    && OtherFlights(s, s', q) && Flight(s', q) == Flight(s, q)
    && s'.closer == s.closer && s'.freed == s.freed && s'.unused == s.unused
    && var queue, before := s'.queues[q], s.queues[q];
       && queue.pushed == before.pushed && queue.done == before.done && queue.log == before.log
       && queue.joinable == before.joinable
       && (Stopping(queue.worker) <==> Stopping(before.worker))
       && (queue.worker == Asleep(false) ==> queue.items == [])
  }

  lemma WorkerWaited(s: State, q: nat, s': State)
    requires Inv(s) && Allowed(s, Work(q)) && WorkStep(s, q) == Some(s') && WorkerBatch(s.queues[q].worker) == []
    ensures Waited(s, s', q)
  {
    WorkerIsAlone(s, q);
    assert QueueInv(s.queues[q]);
    assert Flight(s', q) == Flight(s, q);
  }

  lemma WorkWaits(s: State, q: nat, s': State)
    requires Inv(s) && Allowed(s, Work(q)) && WorkStep(s, q) == Some(s') && WorkerBatch(s.queues[q].worker) == []
    ensures Inv(s')
  {
    WorkerIsAlone(s, q);
    WorkerWaited(s, q, s');
    WaitedKeepsInv(s, q, s');
  }

  lemma WaitedKeepsInv(s: State, q: nat, s': State)
    requires Inv(s) && q < |s.queues| && Waited(s, s', q) && s.queues[q].joinable
    requires !FinallyDrained(s, q) && (s.closer.Drain? ==> s.closer.i != q)
    ensures Inv(s')
  {
    assert QueueInv(s.queues[q]) && PillInv(s, q, s.queues[q]) && Accounted(s, q);
    SameFlights(s, s', q);
    SameCloserInv(s, s', q);
    OneQueueChanged(s, s', q);
  }

  /** One node was consumed, by the worker or by the closer. */
  ghost predicate Consumed(s: State, s': State, q: nat, stopping: bool)
    requires q < |s.queues| && Flight(s, q) != []
  {
    var head, before := Flight(s, q)[0], s.queues[q];
    && OtherFlights(s, s', q) && Flight(s', q) == Flight(s, q)[1..]
    && s'.unused == s.unused && s'.freed == s.freed + (if IsPill(head) then {} else Frees(head))
    && var queue := s'.queues[q];
       && queue.items == before.items && queue.pushed == before.pushed && queue.joinable == before.joinable
       && queue.done == before.done + [head]
       && queue.log == before.log + if IsPill(head) then [] else [Event(head, if stopping then Cancelled else Ok)]
  }

  lemma ConsumeIsConsumed(s: State, worker: Worker, closer: Closer, q: nat, status: Status)
    requires q < |s.queues| && Flight(s, q) != []
    requires var s1 := SetQueue(s, q, s.queues[q].(worker := worker)).(closer := closer);
             Flight(s1, q) == Flight(s, q)[1..] && OtherFlights(s, s1, q)
    ensures var s' := Consume(SetQueue(s, q, s.queues[q].(worker := worker)).(closer := closer), q, Flight(s, q)[0], status);
            && Consumed(s, s', q, status == Cancelled) && s'.closer == closer && s'.queues[q].worker == worker
  {
    var s1 := SetQueue(s, q, s.queues[q].(worker := worker)).(closer := closer);
    var s' := Consume(s1, q, Flight(s, q)[0], status);
    assert forall r :: 0 <= r < |s.queues| ==> Flight(s', r) == Flight(s1, r);
  }

  lemma WorkerConsumed(s: State, q: nat, s': State)
    requires Inv(s) && Allowed(s, Work(q)) && WorkStep(s, q) == Some(s') && WorkerBatch(s.queues[q].worker) != []
    ensures Flight(s, q) != [] && Consumed(s, s', q, Stopping(s.queues[q].worker)) && s'.closer == s.closer
    ensures Stopping(s'.queues[q].worker) <==> Stopping(s.queues[q].worker) || IsPill(Flight(s, q)[0])
    ensures !s'.queues[q].worker.Exited? && !s'.queues[q].worker.Asleep?
  {
    WorkerIsAlone(s, q);
    var queue := s.queues[q];
    var batch := queue.worker.batch;
    assert Flight(s, q)[0] == batch[0] && Flight(s, q)[1..] == batch[1..] + queue.items;
    var worker := if queue.worker.Cancelling? || IsPill(batch[0]) then Cancelling(batch[1..]) else Running(batch[1..]);
    var status := if queue.worker.Cancelling? then Cancelled else Ok;
    assert SetQueue(s, q, queue.(worker := worker)).(closer := s.closer) == SetQueue(s, q, queue.(worker := worker));
    ConsumeIsConsumed(s, worker, s.closer, q, status);
  }

  lemma ConsumedQueueInv(s: State, s': State, q: nat, stopping: bool)
    requires Inv(s) && q < |s.queues| && Flight(s, q) != [] && Consumed(s, s', q, stopping)
    requires stopping == Stopping(s.queues[q].worker)
    requires Stopping(s'.queues[q].worker) <==> stopping || IsPill(Flight(s, q)[0])
    requires s'.queues[q].worker == s.queues[q].worker || (!s'.queues[q].worker.Exited? && !s'.queues[q].worker.Asleep?)
    requires s'.queues[q].worker.Exited? == s.queues[q].worker.Exited?
    ensures QueueInv(s'.queues[q]) && Accounted(s', q)
  {
    assert QueueInv(s.queues[q]) && Accounted(s, q);
    ResumedNext(s.queues[q].done, Flight(s, q)[0]);
    assert s.queues[q].done + Flight(s, q) == (s.queues[q].done + [Flight(s, q)[0]]) + Flight(s, q)[1..];
  }

  /** A worker that reads the shared pill starts to stop. */
  lemma WorkerPillInv(s: State, s': State, q: nat)
    requires q < |s.queues| && Flight(s, q) != [] && PillInv(s, q, s.queues[q])
    requires Consumed(s, s', q, Stopping(s.queues[q].worker)) && s'.closer == s.closer
    requires Stopping(s'.queues[q].worker) <==> Stopping(s.queues[q].worker) || IsPill(Flight(s, q)[0])
    ensures PillInv(s', q, s'.queues[q])
  {
    HeadAndTail(Flight(s, q), SharedPill);
  }

  lemma HeadAndTail(nodes: seq<Node>, node: Node)
    requires nodes != []
    ensures node in nodes <==> node == nodes[0] || node in nodes[1..]
  {
    assert nodes == [nodes[0]] + nodes[1..];
  }

  lemma WorkConsumes(s: State, q: nat, s': State)
    requires Inv(s) && Allowed(s, Work(q)) && WorkStep(s, q) == Some(s') && WorkerBatch(s.queues[q].worker) != []
    ensures Inv(s')
  {
    WorkerConsumed(s, q, s');
    ConsumedByWorker(s, q, s');
  }

  lemma ConsumedByWorker(s: State, q: nat, s': State)
    requires Inv(s) && q < |s.queues| && !s.queues[q].worker.Exited? && Flight(s, q) != []
    requires Consumed(s, s', q, Stopping(s.queues[q].worker)) && s'.closer == s.closer
    requires Stopping(s'.queues[q].worker) <==> Stopping(s.queues[q].worker) || IsPill(Flight(s, q)[0])
    requires !s'.queues[q].worker.Exited? && !s'.queues[q].worker.Asleep?
    ensures Inv(s')
  {
    ConsumedQueueInv(s, s', q, Stopping(s.queues[q].worker));
    ConsumedFlight(s, s', q);
    WorkerPillInv(s, s', q);
    SameCloserInv(s, s', q);
    OneQueueChanged(s, s', q);
  }

  /** Who was joined stays joined. */
  lemma SameCloserInv(s: State, s': State, q: nat)
    requires CloserInv(s) && s'.closer == s.closer && OtherFlights(s, s', q)
    requires q < |s.queues| ==> (s.queues[q].joinable <==> s'.queues[q].joinable)
    ensures CloserInv(s')
  {
    assert forall r :: 0 <= r < |s.queues| ==> (s'.queues[r].joinable <==> s.queues[r].joinable);
  }

  // ----- pushing -----

  /** `nodes` were appended to queue `q`, and its worker notified if the queue was empty. */
  ghost predicate Appended(s: State, s': State, q: nat, nodes: seq<Node>)
    requires q < |s.queues|
  {
    && OtherFlights(s, s', q) && Flight(s', q) == Flight(s, q) + nodes
    && s'.freed == s.freed && s'.unused == s.unused + (if nodes == [SharedPill] then 0 else 1)
    && var queue := s.queues[q];
       s'.queues[q] == queue.(items := queue.items + nodes, pushed := queue.pushed + nodes,
                              worker := if queue.items == [] && queue.worker.Asleep? then Asleep(true) else queue.worker)
  }

  lemma PushedNodesAreNotLinked(s: State, nodes: seq<Node>)
    requires Inv(s) && CanPush(s, nodes)
    ensures forall node, r :: node in nodes && 0 <= r < |s.queues| ==> node !in Flight(s, r)
  {
    forall node, r | node in nodes && 0 <= r < |s.queues|
      ensures node !in Flight(s, r)
    {
      forall i | 0 <= i < |Flight(s, r)|
        ensures Flight(s, r)[i] != node
      {
        assert Holds(s, r, i, Flight(s, r)[i]);
      }
    }
  }

  /** A push never meets a dead last node, nor a node that is still linked. */
  lemma PushIsSafe(s: State, s0: State, q: nat, nodes: seq<Node>)
    requires Inv(s) && q < |s.queues| && CanPush(s, nodes)
    requires s0.queues == s.queues && s0.freed == s.freed && forall r :: 0 <= r < |s.queues| ==> Flight(s0, r) == Flight(s, r)
    requires s0.unused == s.unused + if nodes == [SharedPill] then 0 else 1
    ensures PushOnto(s0, q, nodes).Some? && Appended(s, PushOnto(s0, q, nodes).value, q, nodes)
    ensures PushOnto(s0, q, nodes).value.closer == s0.closer
  {
    var flight, items := Flight(s, q), s.queues[q].items;
    if items != [] {
      assert Holds(s, q, |flight| - 1, items[|items| - 1]);
    }
    PushedNodesAreNotLinked(s, nodes);
    assert PushOnto(s0, q, nodes).Some?;
    AppendIsAppended(s, s0, q, nodes, PushOnto(s0, q, nodes).value);
  }

  lemma AppendIsAppended(s: State, s0: State, q: nat, nodes: seq<Node>, s': State)
    requires s0.queues == s.queues && q < |s.queues| && PushOnto(s0, q, nodes) == Some(s')
    requires s0.freed == s.freed && forall r :: 0 <= r < |s.queues| ==> Flight(s0, r) == Flight(s, r)
    requires s0.unused == s.unused + if nodes == [SharedPill] then 0 else 1
    ensures OtherFlights(s, s', q) && Appended(s, s', q, nodes) && s'.closer == s0.closer
  {
    assert WorkerBatch(s'.queues[q].worker) == WorkerBatch(s.queues[q].worker);
    assert Flight(s', q) == Flight(s0, q) + nodes;
    assert forall r :: 0 <= r < |s.queues| && r != q ==> Flight(s', r) == Flight(s0, r);
  }

  lemma PairedAppend(pushed: seq<Node>, nodes: seq<Node>)
    requires Paired(pushed) && Paired(nodes)
    ensures Paired(pushed + nodes)
  {
    var all, n := pushed + nodes, |pushed|;
    forall i | 0 <= i < |all| && all[i].StopPill?
      ensures i + 1 < |all| && all[i + 1] == StopNode(all[i].id)
    {
      assert if i < n then all[i] == pushed[i] && all[i + 1] == pushed[i + 1] else all[i] == nodes[i - n];
    }
    forall i | 0 <= i < |all| && all[i].StopNode?
      ensures 0 < i && all[i - 1] == StopPill(all[i].id)
    {
      assert if i < n then all[i] == pushed[i] else all[i] == nodes[i - n] && all[i - 1] == nodes[i - n - 1];
    }
  }

  lemma AppendedQueueInv(s: State, s': State, q: nat, nodes: seq<Node>)
    requires Inv(s) && q < |s.queues| && Appended(s, s', q, nodes) && Paired(nodes)
    ensures QueueInv(s'.queues[q]) && Accounted(s', q)
  {
    assert QueueInv(s.queues[q]) && Accounted(s, q);
    PairedAppend(s.queues[q].pushed, nodes);
  }

  lemma PushKeepsInv(s: State, q: nat, nodes: seq<Node>, s': State)
    requires Inv(s) && q < |s.queues| && CanPush(s, nodes) && nodes != [SharedPill] && !FinallyDrained(s, q)
    requires PushOnto(s.(unused := s.unused + 1), q, nodes) == Some(s')
    ensures Inv(s')
  {
    PushIsSafe(s, s.(unused := s.unused + 1), q, nodes);
    AppendedQueueInv(s, s', q, nodes);
    PushedFlight(s, s', q, nodes);
    assert PillInv(s, q, s.queues[q]);
    OneQueueChanged(s, s', q);
  }

  // ----- closing -----

  /** The shared pill is nowhere linked when the destructor comes to the next queue. */
  lemma SharedPillIsFree(s: State, r: nat)
    requires Inv(s) && r < |s.queues| && !s.closer.Join? && !(s.closer.Drain? && s.closer.batch != Some([]))
    ensures SharedPill !in Flight(s, r)
  {
    assert PillInv(s, r, s.queues[r]) && QueueInv(s.queues[r]);
  }

  /** The closer goes on without touching a queue. */
  lemma CloserMoves(s: State, s': State)
    requires Inv(s) && s'.queues == s.queues && s'.unused == s.unused && CloserInv(s')
    requires !s.closer.Join? && !(s.closer.Drain? && s.closer.batch != Some([]))
    requires forall r :: 0 <= r < |s.queues| ==> CloserBatch(s.closer, r) == CloserBatch(s'.closer, r) == []
    requires !s'.closer.Join? && !s'.closer.Drain? && !s.closer.Gone?
    requires forall r :: 0 <= r < |s.queues| && FinallyDrained(s', r) ==> FinallyDrained(s, r)
    requires s'.freed == s.freed || (s'.closer.Gone? && s'.freed == s.freed + {SharedPill})
    ensures Inv(s')
  {
    forall r | 0 <= r < |s.queues|
      ensures SharedPill !in Flight(s, r) && Flight(s', r) == Flight(s, r)
    {
      SharedPillIsFree(s, r);
    }
    SameFlights(s, s', |s.queues|);
    forall r | 0 <= r < |s'.queues|
      ensures QueueInv(s'.queues[r]) && PillInv(s', r, s'.queues[r]) && Accounted(s', r)
    {
      assert QueueInv(s.queues[r]) && PillInv(s, r, s.queues[r]) && Accounted(s, r);
    }
  }

  /** The destructor pushes its pill into queue `i`. */
  lemma LoopPushes(s: State, s': State, i: nat)
    requires Inv(s) && s.closer == Loop(i) && i < |s.queues| && s.queues[i].joinable && CloseStep(s) == Some(s')
    ensures Inv(s')
  {
    forall r | 0 <= r < |s.queues|
      ensures SharedPill !in Flight(s, r)
    {
      SharedPillIsFree(s, r);
    }
    PushIsSafe(s, s.(closer := Join(i)), i, [SharedPill]);
    AppendedQueueInv(s, s', i, [SharedPill]);
    PushedFlight(s, s', i, [SharedPill]);
    forall r | 0 <= r < |s'.queues|
      ensures QueueInv(s'.queues[r]) && PillInv(s', r, s'.queues[r]) && Accounted(s', r)
    {
      assert QueueInv(s.queues[r]) && PillInv(s, r, s.queues[r]) && Accounted(s, r);
    }
  }

  /** A thread that has exited is joined. */
  lemma Joins(s: State, s': State, i: nat)
    requires Inv(s) && (s.closer == WaitJoin(i) || s.closer == Join(i)) && i < |s.queues| && Allowed(s, Close)
    requires CloseStep(s) == Some(s')
    ensures Inv(s')
  {
    assert QueueInv(s.queues[i]);
    forall r | 0 <= r < |s.queues|
      ensures Flight(s', r) == Flight(s, r)
    {
    }
    SameFlights(s, s', i);
    forall r | 0 <= r < |s'.queues|
      ensures QueueInv(s'.queues[r]) && PillInv(s', r, s'.queues[r]) && Accounted(s', r)
    {
      assert QueueInv(s.queues[r]) && PillInv(s, r, s.queues[r]) && Accounted(s, r);
    }
  }

  ghost predicate Draining(s: State, i: nat) {
    && (s.closer.WaitDrain? || s.closer.Drain? || s.closer.Final?) && s.closer.i == i < |s.queues|
  }

  lemma DrainedQueueHasExited(s: State, i: nat)
    requires Inv(s) && Draining(s, i)
    ensures s.queues[i].worker.Exited? && Flight(s, i) == CloserBatch(s.closer, i) + s.queues[i].items
  {
    assert QueueInv(s.queues[i]);
  }

  lemma DrainPops(s: State, s': State, i: nat)
    requires Inv(s) && Draining(s, i) && s.closer.batch == None && DrainStep(s, i, None) == Some(s')
    ensures Inv(s')
  {
    DrainedQueueHasExited(s, i);
    assert Flight(s', i) == Flight(s, i);
    assert forall r :: 0 <= r < |s.queues| && r != i ==> CloserBatch(s'.closer, r) == CloserBatch(s.closer, r) == [];
    SameFlights(s, s', i);
    forall r | 0 <= r < |s'.queues|
      ensures QueueInv(s'.queues[r]) && PillInv(s', r, s'.queues[r]) && Accounted(s', r)
    {
      assert QueueInv(s.queues[r]) && PillInv(s, r, s.queues[r]) && Accounted(s, r);
    }
  }

  lemma DrainIsSafe(s: State, i: nat)
    requires Inv(s) && Draining(s, i) && s.closer.batch != Some([])
    ensures DrainStep(s, i, s.closer.batch).Some?
  {
    if s.closer.batch.Some? {
      DrainedQueueHasExited(s, i);
      assert s.closer.batch.value != [] ==> Holds(s, i, 0, s.closer.batch.value[0]);
    }
  }

  lemma DrainConsumed(s: State, s': State, i: nat)
    requires Inv(s) && Draining(s, i) && s.closer.batch.Some? && s.closer.batch.value != []
    requires DrainStep(s, i, s.closer.batch) == Some(s')
    ensures Flight(s, i) != [] && Consumed(s, s', i, true)
    ensures s'.queues[i].worker == s.queues[i].worker == Exited
    ensures s'.closer == WithBatch(s.closer, Some(s.closer.batch.value[1..]))
  {
    DrainedQueueHasExited(s, i);
    var closer := WithBatch(s.closer, Some(s.closer.batch.value[1..]));
    SameWorker(s, i);
    BatchShrinks(s, i);
    ConsumeIsConsumed(s, s.queues[i].worker, closer, i, Cancelled);
  }

  lemma SameWorker(s: State, i: nat)
    requires i < |s.queues|
    ensures SetQueue(s, i, s.queues[i].(worker := s.queues[i].worker)) == s
  {
    assert s.queues[i := s.queues[i]] == s.queues;
  }

  lemma BatchShrinks(s: State, i: nat)
    requires Inv(s) && Draining(s, i) && s.closer.batch.Some? && s.closer.batch.value != []
    ensures var s1 := s.(closer := WithBatch(s.closer, Some(s.closer.batch.value[1..])));
            Flight(s, i) != [] && Flight(s1, i) == Flight(s, i)[1..] && OtherFlights(s, s1, i)
  {
    DrainedQueueHasExited(s, i);
  }

  lemma DrainPillInv(s: State, s': State, i: nat, r: nat)
    requires Draining(s, i) && s.closer.batch.Some? && s.closer.batch.value != [] && r < |s.queues|
    requires Flight(s, i) != [] && Consumed(s, s', i, true) && s'.queues[i].worker == s.queues[i].worker == Exited
    requires s'.closer == WithBatch(s.closer, Some(s.closer.batch.value[1..]))
    requires PillInv(s, r, s.queues[r])
    ensures PillInv(s', r, s'.queues[r])
  {
    HeadAndTail(Flight(s, i), SharedPill);
  }

  lemma DrainCancels(s: State, s': State, i: nat)
    requires Inv(s) && Draining(s, i) && s.closer.batch.Some? && s.closer.batch.value != []
    requires Flight(s, i) != [] && Consumed(s, s', i, true) && s'.queues[i].worker == s.queues[i].worker == Exited
    requires s'.closer == WithBatch(s.closer, Some(s.closer.batch.value[1..]))
    ensures Inv(s')
  {
    ConsumedQueueInv(s, s', i, true);
    ConsumedFlight(s, s', i);
    forall r | 0 <= r < |s'.queues|
      ensures QueueInv(s'.queues[r]) && PillInv(s', r, s'.queues[r]) && Accounted(s', r)
    {
      DrainPillInv(s, s', i, r);
      assert r != i ==> QueueInv(s.queues[r]) && Accounted(s, r);
    }
    DrainCloserInv(s, s', i);
  }

  lemma DrainCloserInv(s: State, s': State, i: nat)
    requires CloserInv(s) && Draining(s, i) && OtherFlights(s, s', i) && s'.queues[i].joinable == s.queues[i].joinable
    requires exists batch :: s'.closer == WithBatch(s.closer, batch)
    ensures CloserInv(s')
  {
    assert forall r :: 0 <= r < |s.queues| ==> (s'.queues[r].joinable <==> s.queues[r].joinable);
  }

  lemma CloseIsSafe(s: State)
    requires Inv(s) && Allowed(s, Close)
    ensures CloseStep(s).Some?
  {
    if s.closer.Loop? && s.closer.i < |s.queues| {
      forall r | 0 <= r < |s.queues|
        ensures SharedPill !in Flight(s, r)
      {
        SharedPillIsFree(s, r);
      }
      PushIsSafe(s, s.(closer := Join(s.closer.i)), s.closer.i, [SharedPill]);
    } else if (s.closer.WaitDrain? || s.closer.Drain? || s.closer.Final?)
              && s.closer.i < |s.queues| && s.closer.batch != Some([]) {
      DrainIsSafe(s, s.closer.i);
    }
  }

  lemma CloseKeepsInv(s: State, s': State)
    requires Inv(s) && Allowed(s, Close) && CloseStep(s) == Some(s')
    ensures Inv(s')
  {
    var i := s.closer.i;
    if i >= |s.queues| {
      CloserMoves(s, s');
    } else if s.closer.WaitJoin? || s.closer.Join? {
      Joins(s, s', i);
    } else if s.closer.Loop? {
      if s.queues[i].joinable { LoopPushes(s, s', i); } else { CloserMoves(s, s'); }
    } else if s.closer.batch == None {
      DrainPops(s, s', i);
    } else if s.closer.batch == Some([]) {
      CloserMoves(s, s');
    } else {
      DrainConsumed(s, s', i);
      DrainCancels(s, s', i);
    }
  }

  /** No step reads a dead node or pushes a linked one: the queue's last node, each node a worker or the
      closer reads, and the pills in particular. */
  lemma StepIsSafe(s: State, move: Move)
    requires Inv(s) && Allowed(s, move)
    ensures Step(s, move).Some?
  {
    match move
    case Push(q) => PushIsSafe(s, s.(unused := s.unused + 1), q, [Task(s.unused)]);
    case RequestStop(q) => PushIsSafe(s, s.(unused := s.unused + 1), q, [StopPill(s.unused), StopNode(s.unused)]);
    case Work(q) => WorkIsSafe(s, q);
    case WaitStop =>
    case Destroy =>
    case Close => CloseIsSafe(s);
  }

  lemma StartsClosing(s: State, closer: Closer)
    requires Inv(s) && s.closer.Nobody? && (closer == WaitJoin(0) || closer == Loop(0))
    ensures Inv(s.(closer := closer))
  {
    CloserMoves(s, s.(closer := closer));
  }

  lemma StepKeepsInv(s: State, move: Move, s': State)
    requires Inv(s) && Allowed(s, move) && Step(s, move) == Some(s')
    ensures Inv(s')
  {
    if move.Push? || move.RequestStop? {
      CallerKeepsInv(s, move, s');
    } else {
      match move
      case Work(q) => WorkKeepsInv(s, q, s');
      case WaitStop => StartsClosing(s, WaitJoin(0));
      case Destroy => StartsClosing(s, Loop(0));
      case Close => CloseKeepsInv(s, s');
    }
  }

  lemma CallerKeepsInv(s: State, move: Move, s': State)
    requires Inv(s) && Allowed(s, move) && (move.Push? || move.RequestStop?) && Step(s, move) == Some(s')
    ensures Inv(s')
  {
    match move
    case Push(q) => PushKeepsInv(s, q, [Task(s.unused)], s');
    case RequestStop(q) => PushKeepsInv(s, q, [StopPill(s.unused), StopNode(s.unused)], s');
  }

  // ----- what holds over all runs -----

  /** A new pool. */
  ghost predicate Initial(s: State) {
    && s.closer == Nobody && s.freed == {} && s.unused == 0
    && forall q :: 0 <= q < |s.queues| ==> s.queues[q] == Queue([], Awake, true, [], [], [])
  }

  ghost predicate Run(states: seq<State>, moves: seq<Move>) {
    && |states| == |moves| + 1
    && Initial(states[0])
    && forall k :: 0 <= k < |moves| ==> CanStep(states[k], moves[k], states[k + 1])
  }

  ghost predicate CanStep(s: State, move: Move, s': State) {
    Allowed(s, move) && Step(s, move) == Some(s')
  }

  lemma InitialInv(s: State)
    requires Initial(s)
    ensures Inv(s)
  {
    forall q | 0 <= q < |s.queues|
      ensures Flight(s, q) == [] && QueueInv(s.queues[q]) && PillInv(s, q, s.queues[q]) && Accounted(s, q)
    {
    }
  }

  lemma {:induction false} RunKeepsInv(states: seq<State>, moves: seq<Move>, k: nat)
    requires Run(states, moves) && k < |states|
    ensures Inv(states[k])
  {
    if k == 0 {
      InitialInv(states[0]);
    } else {
      RunKeepsInv(states, moves, k - 1);
      assert CanStep(states[k - 1], moves[k - 1], states[k]);
      StepKeepsInv(states[k - 1], moves[k - 1], states[k]);
    }
  }

  /** No run reads a dead node or links one twice. */
  lemma NoDeadNodeIsTouched(states: seq<State>, moves: seq<Move>, k: nat, move: Move)
    requires Run(states, moves) && k < |states| && Allowed(states[k], move)
    ensures Step(states[k], move).Some?
  {
    RunKeepsInv(states, moves, k);
    StepIsSafe(states[k], move);
  }

  // ----- what the moves ask for -----

  /** How many tasks were handed to the pool: each gets a ticket of its own. */
  function Tickets(moves: seq<Move>): nat {
    if moves == [] then 0
    else
      var last := moves[|moves| - 1];
      Tickets(moves[..|moves| - 1]) + if last.Push? || last.RequestStop? then 1 else 0
  }

  /** How many of them were for queue `q`. */
  function Asked(moves: seq<Move>, q: nat): nat {
    if moves == [] then 0
    else
      var last := moves[|moves| - 1];
      Asked(moves[..|moves| - 1], q) + if last == Push(q) || last == RequestStop(q) then 1 else 0
  }

  /** The nodes that a move adds to queue `q`; the destructor adds its pill when it begins to join the worker. */
  function Added(move: Move, ticket: nat, after: State, q: nat): seq<Node> {
    match move
    case Push(r) => if r == q then [Task(ticket)] else []
    case RequestStop(r) => if r == q then [StopPill(ticket), StopNode(ticket)] else []
    case Close => if after.closer == Join(q) then [SharedPill] else []
    case _ => []
  }

  ghost function Requested(states: seq<State>, moves: seq<Move>, k: nat, q: nat): seq<Node>
    requires k <= |moves| < |states|
  {
    if k == 0 then []
    else Requested(states, moves, k - 1, q) + Added(moves[k - 1], Tickets(moves[..k - 1]), states[k], q)
  }

  lemma StepAdds(s: State, move: Move, s': State, q: nat)
    requires CanStep(s, move, s') && q < |s.queues|
    ensures |s'.queues| == |s.queues| && s'.unused == s.unused + if move.Push? || move.RequestStop? then 1 else 0
    ensures s'.queues[q].pushed == s.queues[q].pushed + Added(move, s.unused, s', q)
    {
    match move
    case Work(_) => WorkAddsNothing(s, move, s', q);
    case Close => CloseAdds(s, s', q);
    case _ =>
  }

  lemma WorkAddsNothing(s: State, move: Move, s': State, q: nat)
    requires CanStep(s, move, s') && q < |s.queues| && move.Work?
    ensures |s'.queues| == |s.queues| && s'.unused == s.unused && s'.queues[q].pushed == s.queues[q].pushed
  {
  }

  lemma CloseAdds(s: State, s': State, q: nat)
    requires CanStep(s, Close, s') && q < |s.queues|
    ensures |s'.queues| == |s.queues| && s'.unused == s.unused
    ensures s'.queues[q].pushed == s.queues[q].pushed + if s'.closer == Join(q) then [SharedPill] else []
  {
  }

  /** What was ever linked into a queue is what was asked for, in the order of the moves. */
  lemma {:induction false} PushedIsRequested(states: seq<State>, moves: seq<Move>, k: nat, q: nat)
    requires Run(states, moves) && k < |states| && q < |states[0].queues|
    ensures |states[k].queues| == |states[0].queues| && states[k].unused == Tickets(moves[..k])
    ensures states[k].queues[q].pushed == Requested(states, moves, k, q)
  {
    if k > 0 {
      PushedIsRequested(states, moves, k - 1, q);
      PushedNext(states, moves, k - 1, q);
      assert moves[..k][..k - 1] == moves[..k - 1];
    }
  }

  lemma PushedNext(states: seq<State>, moves: seq<Move>, k: nat, q: nat)
    requires Run(states, moves) && k < |moves| && q < |states[k].queues|
    ensures var s, move, s' := states[k], moves[k], states[k + 1];
            && |s'.queues| == |s.queues| && s'.unused == s.unused + (if move.Push? || move.RequestStop? then 1 else 0)
            && s'.queues[q].pushed == s.queues[q].pushed + Added(move, s.unused, s', q)
  {
    assert CanStep(states[k], moves[k], states[k + 1]);
    StepAdds(states[k], moves[k], states[k + 1], q);
  }

  /** At any time each queue's tasks were resumed once each, in push order and with the right status, up to
      some point; once the pool is gone, all that were ever pushed. */
  lemma EachTaskIsResumedOnceInOrder(states: seq<State>, moves: seq<Move>, k: nat, q: nat)
    requires Run(states, moves) && k < |states| && q < |states[k].queues|
    ensures var queue := states[k].queues[q];
            && queue.done <= queue.pushed && queue.log == Resumed(queue.done)
            && (states[k].closer.Gone? ==> queue.done == queue.pushed)
  {
    RunKeepsInv(states, moves, k);
    var s := states[k];
    assert QueueInv(s.queues[q]) && PillInv(s, q, s.queues[q]) && Accounted(s, q);
  }

  /** Queue `q` was asked to stop before move `l`. */
  ghost predicate Stopped(states: seq<State>, moves: seq<Move>, l: nat, q: nat)
    requires l <= |moves| < |states|
  {
    exists m :: 0 <= m < l && (moves[m] == RequestStop(q) || (moves[m] == Close && states[m + 1].closer == Join(q)))
  }

  lemma StoppedNext(states: seq<State>, moves: seq<Move>, l: nat, q: nat)
    requires l < |moves| < |states|
    ensures Stopped(states, moves, l + 1, q) <==>
            Stopped(states, moves, l, q) || moves[l] == RequestStop(q) || (moves[l] == Close && states[l + 1].closer == Join(q))
  {
  }

  /** The resumptions that nodes added by one move promise, after those promised before. */
  lemma ResumedAdded(nodes: seq<Node>, move: Move, ticket: nat, after: State, q: nat)
    ensures var all, stopped := nodes + Added(move, ticket, after, q), HasPill(nodes);
            && (HasPill(all) <==> stopped || move == RequestStop(q) || (move == Close && after.closer == Join(q)))
            && Resumed(all) == Resumed(nodes) +
                 if move == Push(q) then [Event(Task(ticket), if stopped then Cancelled else Ok)]
                 else if move == RequestStop(q) then [Event(StopNode(ticket), Cancelled)]
                 else []
  {
    if move == Push(q) {
      ResumedNext(nodes, Task(ticket));
    } else if move == RequestStop(q) {
      ResumedRequest(nodes, ticket);
    } else if move == Close && after.closer == Join(q) {
      ResumedNext(nodes, SharedPill);
    } else {
      assert nodes + [] == nodes;
    }
  }

  lemma ResumedRequest(nodes: seq<Node>, ticket: nat)
    ensures var all := nodes + [StopPill(ticket), StopNode(ticket)];
            HasPill(all) && Resumed(all) == Resumed(nodes) + [Event(StopNode(ticket), Cancelled)]
  {
    ResumedNext(nodes, StopPill(ticket));
    ResumedNext(nodes + [StopPill(ticket)], StopNode(ticket));
    assert nodes + [StopPill(ticket), StopNode(ticket)] == nodes + [StopPill(ticket)] + [StopNode(ticket)];
  }

  /** One resumption is promised for each task that was asked for. */
  lemma {:induction false} PromisedIsAsked(states: seq<State>, moves: seq<Move>, k: nat, q: nat)
    requires k <= |moves| < |states|
    ensures |Resumed(Requested(states, moves, k, q))| == Asked(moves[..k], q)
    ensures HasPill(Requested(states, moves, k, q)) <==> Stopped(states, moves, k, q)
  {
    if k > 0 {
      PromisedIsAsked(states, moves, k - 1, q);
      ResumedAdded(Requested(states, moves, k - 1, q), moves[k - 1], Tickets(moves[..k - 1]), states[k], q);
      StoppedNext(states, moves, k - 1, q);
      assert moves[..k][..k - 1] == moves[..k - 1];
    }
  }

  lemma {:induction false} ResumedPrefix(nodes: seq<Node>, more: seq<Node>)
    ensures Resumed(nodes) <= Resumed(nodes + more)
    decreases more
  {
    if more == [] {
      assert nodes + more == nodes;
    } else {
      var last := |more| - 1;
      ResumedPrefix(nodes, more[..last]);
      assert nodes + more == nodes + more[..last] + [more[last]];
      ResumedNext(nodes + more[..last], more[last]);
    }
  }

  lemma {:induction false} RequestedPrefix(states: seq<State>, moves: seq<Move>, l: nat, k: nat, q: nat)
    requires l <= k <= |moves| < |states|
    ensures Resumed(Requested(states, moves, l, q)) <= Resumed(Requested(states, moves, k, q))
    decreases k
  {
    if l < k {
      RequestedPrefix(states, moves, l, k - 1, q);
      ResumedPrefix(Requested(states, moves, k - 1, q), Added(moves[k - 1], Tickets(moves[..k - 1]), states[k], q));
    }
  }

  /** The event that move `l` asks for. */
  ghost function Promise(states: seq<State>, moves: seq<Move>, l: nat, q: nat): Event
    requires l < |moves| < |states|
  {
    var ticket := Tickets(moves[..l]);
    if moves[l] == RequestStop(q) then Event(StopNode(ticket), Cancelled)
    else Event(Task(ticket), if Stopped(states, moves, l, q) then Cancelled else Ok)
  }

  lemma PromiseOf(states: seq<State>, moves: seq<Move>, k: nat, q: nat, l: nat)
    requires l < k <= |moves| < |states| && (moves[l] == Push(q) || moves[l] == RequestStop(q))
    ensures var promised := Resumed(Requested(states, moves, k, q));
            Asked(moves[..l], q) < |promised| && promised[Asked(moves[..l], q)] == Promise(states, moves, l, q)
  {
    PromisedIsAsked(states, moves, l, q);
    ResumedAdded(Requested(states, moves, l, q), moves[l], Tickets(moves[..l]), states[l + 1], q);
    RequestedPrefix(states, moves, l + 1, k, q);
  }

  lemma LogIsPromised(states: seq<State>, moves: seq<Move>, k: nat, q: nat)
    requires Run(states, moves) && k < |states| && q < |states[k].queues|
    ensures states[k].queues[q].log <= Resumed(Requested(states, moves, k, q))
    ensures states[k].closer.Gone? ==> states[k].queues[q].log == Resumed(Requested(states, moves, k, q))
  {
    QueuesStay(states, moves, k);
    PushedIsRequested(states, moves, k, q);
    EachTaskIsResumedOnceInOrder(states, moves, k, q);
    var queue := states[k].queues[q];
    ResumedPrefix(queue.done, queue.pushed[|queue.done|..]);
    assert queue.done + queue.pushed[|queue.done|..] == queue.pushed;
  }

  lemma {:induction false} QueuesStay(states: seq<State>, moves: seq<Move>, k: nat)
    requires Run(states, moves) && k < |states|
    ensures |states[k].queues| == |states[0].queues|
  {
    if k > 0 {
      QueuesStay(states, moves, k - 1);
      assert CanStep(states[k - 1], moves[k - 1], states[k]);
    }
  }

  /** Each task that was handed to a queue is resumed in its turn: the n-th for this queue is the n-th resumed by
      it, cancelled if and only if the queue was asked to stop before, and a request to stop always. Once the
      pool is gone, every one of them was resumed, and nothing else. */
  lemma TaskIsResumedInItsTurn(states: seq<State>, moves: seq<Move>, k: nat, q: nat, l: nat)
    requires Run(states, moves) && l < k < |states| && (moves[l] == Push(q) || moves[l] == RequestStop(q))
    ensures q < |states[k].queues|
    ensures var log, turn := states[k].queues[q].log, Asked(moves[..l], q);
            && |log| <= Asked(moves[..k], q)
            && (states[k].closer.Gone? ==> turn < |log| == Asked(moves[..k], q))
            && (turn < |log| && moves[l] == RequestStop(q) ==> log[turn] == Event(StopNode(Tickets(moves[..l])), Cancelled))
            && (turn < |log| && moves[l] == Push(q) ==>
                 log[turn] == Event(Task(Tickets(moves[..l])), if Stopped(states, moves, l, q) then Cancelled else Ok))
  {
    assert CanStep(states[l], moves[l], states[l + 1]);
    QueuesStay(states, moves, l);
    QueuesStay(states, moves, k);
    LogIsPromised(states, moves, k, q);
    PromisedIsAsked(states, moves, k, q);
    PromiseOf(states, moves, k, q, l);
  }

  lemma {:induction false} TurnWasAsked(states: seq<State>, moves: seq<Move>, k: nat, q: nat, turn: nat) returns (l: nat)
    requires k <= |moves| && turn < Asked(moves[..k], q)
    ensures l < k && (moves[l] == Push(q) || moves[l] == RequestStop(q)) && Asked(moves[..l], q) == turn
  {
    assert moves[..k][..k - 1] == moves[..k - 1];
    if turn < Asked(moves[..k - 1], q) {
      l := TurnWasAsked(states, moves, k - 1, q, turn);
    } else {
      l := k - 1;
    }
  }

  lemma {:induction false} TicketsDiffer(moves: seq<Move>, l: nat, k: nat)
    requires l < k <= |moves| && (moves[l].Push? || moves[l].RequestStop?)
    ensures Tickets(moves[..l]) < Tickets(moves[..k])
    decreases k
  {
    assert moves[..k][..k - 1] == moves[..k - 1];
    if l < k - 1 {
      TicketsDiffer(moves, l, k - 1);
    }
  }

  /** The task of a push is resumed at most once, by its own queue, and exactly once when the pool is gone. */
  lemma TaskIsResumedOnce(states: seq<State>, moves: seq<Move>, k: nat, q: nat, l: nat, r: nat, turn: nat)
    requires Run(states, moves) && l < k < |states| && moves[l] == Push(q)
    requires r < |states[k].queues| && turn < |states[k].queues[r].log|
    requires states[k].queues[r].log[turn].node == Task(Tickets(moves[..l]))
    ensures r == q && turn == Asked(moves[..l], q)
  {
    LogIsPromised(states, moves, k, r);
    PromisedIsAsked(states, moves, k, r);
    var m := TurnWasAsked(states, moves, k, r, turn);
    PromiseOf(states, moves, k, r, m);
    if m < l {
      TicketsDiffer(moves, m, l);
    } else if l < m {
      TicketsDiffer(moves, l, m);
    }
  }

  function TasksAmong(nodes: seq<Node>): nat {
    if nodes == [] then 0 else TasksAmong(nodes[..|nodes| - 1]) + if IsPill(nodes[|nodes| - 1]) then 0 else 1
  }

  /** What `Resumed` says, position by position: nothing else is resumed, and the task that is the n-th among
      those pushed is the n-th resumed, as cancelled if and only if a pill was pushed before it. */
  lemma {:induction false} ResumedMeans(nodes: seq<Node>, i: nat)
    requires i < |nodes|
    ensures |Resumed(nodes)| == TasksAmong(nodes)
    ensures !IsPill(nodes[i]) ==>
              && TasksAmong(nodes[..i]) < TasksAmong(nodes)
              && Resumed(nodes)[TasksAmong(nodes[..i])] == Event(nodes[i], if HasPill(nodes[..i]) then Cancelled else Ok)
    decreases nodes
  {
    var last := |nodes| - 1;
    if i < last {
      ResumedMeans(nodes[..last], i);
      assert nodes[..last][..i] == nodes[..i];
    } else if last > 0 {
      ResumedMeans(nodes[..last], last - 1);
    }
  }

  /** Every request to stop learns that it is cancelled. */
  lemma StopRequestsAreCancelled(states: seq<State>, moves: seq<Move>, k: nat, q: nat, event: Event)
    requires Run(states, moves) && k < |states| && q < |states[k].queues|
    requires event in states[k].queues[q].log && event.node.StopNode?
    ensures event.status == Cancelled
  {
    RunKeepsInv(states, moves, k);
    var s := states[k];
    assert QueueInv(s.queues[q]) && Accounted(s, q);
    StopNodesCancelled(s.queues[q].pushed, s.queues[q].done, event);
  }

  lemma {:induction false} StopNodesCancelled(pushed: seq<Node>, done: seq<Node>, event: Event)
    requires Paired(pushed) && done <= pushed && event in Resumed(done) && event.node.StopNode?
    ensures event.status == Cancelled
    decreases done
  {
    var last := |done| - 1;
    if event in Resumed(done[..last]) {
      StopNodesCancelled(pushed, done[..last], event);
    } else {
      assert event.node == done[last] == pushed[last];
      assert pushed[last - 1] == StopPill(event.node.id) && done[..last][last - 1] == pushed[last - 1];
      assert StopPill(event.node.id) in done[..last];
    }
  }

  /** The destructor's pill is linked in one place at most. */
  lemma SharedPillIsLinkedOnce(states: seq<State>, moves: seq<Move>, k: nat, q: nat, i: nat, r: nat, j: nat)
    requires Run(states, moves) && k < |states|
    requires Holds(states[k], q, i, SharedPill) && Holds(states[k], r, j, SharedPill)
    ensures q == r && i == j
    ensures (states[k].closer.Join? || states[k].closer.Drain?) && states[k].closer.i == q
  {
    RunKeepsInv(states, moves, k);
    assert PillInv(states[k], q, states[k].queues[q]) && SharedPill in Flight(states[k], q);
  }

  /** A worker that sleeps without a pending notification has nothing to do. */
  lemma NoWakeupIsLost(states: seq<State>, moves: seq<Move>, k: nat, q: nat)
    requires Run(states, moves) && k < |states| && q < |states[k].queues|
    requires states[k].queues[q].worker == Asleep(false)
    ensures states[k].queues[q].items == []
  {
    RunKeepsInv(states, moves, k);
    assert QueueInv(states[k].queues[q]);
  }

  // ----- nothing goes on for ever -----

  /** How many steps a worker still has to make at most before it exits, if nothing is pushed. */
  function Remaining(s: State, q: nat): nat
    requires q < |s.queues|
  {
    var worker := s.queues[q].worker;
    3 * |Flight(s, q)| +
    match worker
    case Running(batch) => if batch == [] then 2 else 0
    case Asleep(_) => 2
    case Awake => 1
    case Cancelling(_) => 1
    case Exited => 0
  }

  /** A worker that owes something is not asleep without a notification, and each of its steps brings it closer
      to having resumed all of it. */
  lemma WorkerAdvances(states: seq<State>, moves: seq<Move>, k: nat, q: nat)
    requires Run(states, moves) && k < |states| && q < |states[k].queues| && !states[k].queues[q].worker.Exited?
    requires Flight(states[k], q) != [] || states[k].queues[q].worker.Cancelling?
    ensures var s := states[k];
            && s.queues[q].worker != Asleep(false)
            && Step(s, Work(q)).Some? && q < |Step(s, Work(q)).value.queues|
            && Remaining(Step(s, Work(q)).value, q) < Remaining(s, q)
  {
    RunKeepsInv(states, moves, k);
    var s := states[k];
    WorkIsSafe(s, q);
    WorkerIsAlone(s, q);
    assert QueueInv(s.queues[q]);
    var s' := Step(s, Work(q)).value;
    if WorkerBatch(s.queues[q].worker) != [] {
      WorkerConsumed(s, q, s');
    } else {
      assert Flight(s', q) == Flight(s, q);
    }
  }

  /** A worker that the destructor joins owes at least the shared pill, or is about to exit. */
  lemma JoinedWorkerExits(states: seq<State>, moves: seq<Move>, k: nat)
    requires Run(states, moves) && k < |states| && states[k].closer.Join?
    ensures var s, i := states[k], states[k].closer.i;
            && i < |s.queues|
            && (s.queues[i].worker.Exited? || Flight(s, i) != [] || s.queues[i].worker.Cancelling?)
  {
    RunKeepsInv(states, moves, k);
    assert PillInv(states[k], states[k].closer.i, states[k].queues[states[k].closer.i]);
  }

  /** How far the closer is from the end of `wait_stop` or of the destructor, with `n` queues. */
  function Stage(closer: Closer, n: nat): nat {
    match closer
    case Nobody => 0
    case WaitJoin(i) => 2 * n + 3 + Rest(n, i)
    case WaitDrain(i, batch) => 2 * Rest(n, i) + if batch == None then 2 else 1
    case Loop(i) => 2 * n + 3 + 4 * Rest(n, i)
    case Join(i) => 2 * n + 2 + 4 * Rest(n, i)
    case Drain(i, batch) => 2 * n + 4 * Rest(n, i) + if batch == None then 1 else 0
    case Final(i, batch) => 2 * Rest(n, i) + if batch == None then 2 else 1
    case Gone => 0
  }

  function Rest(n: nat, i: nat): nat {
    if i < n then n - i else 0
  }

  function BatchSize(closer: Closer): nat {
    if (closer.WaitDrain? || closer.Drain? || closer.Final?) && closer.batch.Some? then |closer.batch.value| else 0
  }

  ghost predicate Nearer(before: Closer, after: Closer, n: nat) {
    Stage(after, n) < Stage(before, n) || (Stage(after, n) == Stage(before, n) && BatchSize(after) < BatchSize(before))
  }

  lemma DrainAdvances(s: State, s': State)
    requires CanStep(s, Close, s') && (s.closer.WaitDrain? || s.closer.Drain? || s.closer.Final?)
    requires s.closer.Drain? ==> s.closer.i < |s.queues|
    ensures Nearer(s.closer, s'.closer, |s.queues|)
  {
  }

  lemma JoinAdvances(s: State, s': State)
    requires CanStep(s, Close, s') && !s.closer.WaitDrain? && !s.closer.Drain? && !s.closer.Final?
    requires s.closer.Join? ==> s.closer.i < |s.queues|
    ensures Nearer(s.closer, s'.closer, |s.queues|)
  {
  }

  lemma CloseAdvances(s: State, s': State)
    requires Inv(s) && CanStep(s, Close, s')
    ensures Nearer(s.closer, s'.closer, |s.queues|)
  {
    if s.closer.WaitDrain? || s.closer.Drain? || s.closer.Final? {
      DrainAdvances(s, s');
    } else {
      JoinAdvances(s, s');
    }
  }

  /** `wait_stop` and the destructor come to their end: whenever they can go on they come nearer to it, and the
      destructor cannot only as long as the worker that it joins still has a step to make. */
  lemma CloserComesToItsEnd(states: seq<State>, moves: seq<Move>, k: nat)
    requires Run(states, moves) && k < |states| && !states[k].closer.Nobody? && !states[k].closer.Gone?
    ensures var s := states[k];
            if Allowed(s, Close) then Step(s, Close).Some? && Nearer(s.closer, Step(s, Close).value.closer, |s.queues|)
            else (s.closer.Join? || s.closer.WaitJoin?) && s.closer.i < |s.queues| && Allowed(s, Work(s.closer.i))
  {
    RunKeepsInv(states, moves, k);
    if Allowed(states[k], Close) {
      CloseIsSafe(states[k]);
      CloseAdvances(states[k], CloseStep(states[k]).value);
    }
  }

  // ----- dead nodes -----

  /** Resumed tasks are dead, and so are the pills of resumed requests and of a destructor that is gone. */
  ghost predicate DeadInv(s: State) {
    && (s.closer.Gone? ==> SharedPill in s.freed)
    && forall q :: 0 <= q < |s.queues| ==> LogIsDead(s.freed, s.queues[q].log)
  }

  ghost predicate LogIsDead(freed: set<Node>, log: seq<Event>) {
    forall m :: 0 <= m < |log| ==>
      log[m].node in freed && (log[m].node.StopNode? ==> StopPill(log[m].node.id) in freed)
  }

  lemma ConsumedIsDead(s: State, s': State, q: nat, stopping: bool)
    requires q < |s.queues| && Flight(s, q) != [] && Consumed(s, s', q, stopping) && DeadInv(s)
    requires s'.closer.Gone? ==> s.closer.Gone?
    ensures DeadInv(s')
  {
    var head := Flight(s, q)[0];
    forall r | 0 <= r < |s'.queues|
      ensures LogIsDead(s'.freed, s'.queues[r].log)
    {
      assert LogIsDead(s.freed, s.queues[r].log);
    }
  }

  lemma SameLogsAreDead(s: State, s': State)
    requires DeadInv(s) && s.freed <= s'.freed && |s'.queues| == |s.queues|
    requires forall q :: 0 <= q < |s.queues| ==> s'.queues[q].log == s.queues[q].log
    requires s'.closer.Gone? ==> SharedPill in s'.freed
    ensures DeadInv(s')
  {
    forall r | 0 <= r < |s'.queues|
      ensures LogIsDead(s'.freed, s'.queues[r].log)
    {
      assert LogIsDead(s.freed, s.queues[r].log);
    }
  }

  lemma StepKeepsDead(s: State, move: Move, s': State)
    requires Inv(s) && CanStep(s, move, s') && DeadInv(s)
    ensures DeadInv(s')
  {
    match move
    case Work(q) => WorkKeepsDead(s, q, s');
    case Close => CloseKeepsDead(s, s');
    case _ => SameLogsAreDead(s, s');
  }

  lemma WorkKeepsDead(s: State, q: nat, s': State)
    requires Inv(s) && CanStep(s, Work(q), s') && DeadInv(s)
    ensures DeadInv(s')
  {
    if WorkerBatch(s.queues[q].worker) != [] {
      WorkerConsumed(s, q, s');
      ConsumedIsDead(s, s', q, Stopping(s.queues[q].worker));
    } else {
      WorkerWaited(s, q, s');
      SameLogsAreDead(s, s');
    }
  }

  lemma CloseKeepsDead(s: State, s': State)
    requires Inv(s) && CanStep(s, Close, s') && DeadInv(s)
    ensures DeadInv(s')
  {
    if Draining(s, s.closer.i) && s.closer.batch.Some? && s.closer.batch.value != [] {
      DrainConsumed(s, s', s.closer.i);
      ConsumedIsDead(s, s', s.closer.i, true);
    } else {
      SameLogsAreDead(s, s');
    }
  }

  lemma {:induction false} RunKeepsDead(states: seq<State>, moves: seq<Move>, k: nat)
    requires Run(states, moves) && k < |states|
    ensures DeadInv(states[k])
  {
    if k > 0 {
      RunKeepsDead(states, moves, k - 1);
      RunKeepsInv(states, moves, k - 1);
      assert CanStep(states[k - 1], moves[k - 1], states[k]);
      StepKeepsDead(states[k - 1], moves[k - 1], states[k]);
    }
  }

  /** No node that is linked, or that a worker or the closer has in its hands, was resumed, or is the pill of a
      request that was resumed; and none is linked in two places. */
  lemma LinkedNodesAreAlive(states: seq<State>, moves: seq<Move>, k: nat, q: nat, i: nat, node: Node)
    requires Run(states, moves) && k < |states| && Holds(states[k], q, i, node)
    ensures forall r, m :: 0 <= r < |states[k].queues| && 0 <= m < |states[k].queues[r].log| ==>
              var resumed := states[k].queues[r].log[m].node;
              resumed != node && (resumed.StopNode? ==> node != StopPill(resumed.id))
    ensures node.SharedPill? ==> !states[k].closer.Gone?
    ensures forall r: nat, j: nat :: Holds(states[k], r, j, node) ==> r == q && j == i
  {
    RunKeepsInv(states, moves, k);
    RunKeepsDead(states, moves, k);
    assert Alive(states[k], node);
    forall r, m | 0 <= r < |states[k].queues| && 0 <= m < |states[k].queues[r].log|
      ensures states[k].queues[r].log[m].node in states[k].freed
      ensures states[k].queues[r].log[m].node.StopNode? ==> StopPill(states[k].queues[r].log[m].node.id) in states[k].freed
    {
      assert LogIsDead(states[k].freed, states[k].queues[r].log);
    }
  }

  // ----- what wait_stop and the destructor leave behind -----

  /** When the pool is gone all threads were joined and all queues are empty. */
  lemma GoneMeansJoined(states: seq<State>, moves: seq<Move>, k: nat, q: nat)
    requires Run(states, moves) && k < |states| && q < |states[k].queues| && states[k].closer.Gone?
    ensures states[k].queues[q].worker.Exited? && states[k].queues[q].items == []
  {
    RunKeepsInv(states, moves, k);
    assert QueueInv(states[k].queues[q]) && PillInv(states[k], q, states[k].queues[q]);
  }

  /** `wait_stop`, which began to drain in state `s0`, has consumed what queue `q` held then, or has it in its
      hands, or has still to come to it. */
  ghost predicate DrainedSince(s0: State, s: State, q: nat)
    requires q < |s0.queues| && q < |s.queues|
  {
    var before, queue := |s0.queues[q].pushed|, s.queues[q];
    && before <= |queue.pushed|
    && (s.closer.Nobody? ==> before <= |queue.done|)
    && (s.closer.WaitDrain? && s.closer.i > q ==> before <= |queue.done|)
    && (s.closer.WaitDrain? && s.closer.i == q && s.closer.batch.Some? ==> before <= |queue.done| + |s.closer.batch.value|)
  }

  lemma NoWorkerIsLeft(s: State)
    requires Inv(s) && s.closer.WaitDrain?
    ensures forall r :: 0 <= r < |s.queues| ==> s.queues[r].worker.Exited?
  {
    forall r | 0 <= r < |s.queues|
      ensures s.queues[r].worker.Exited?
    {
      assert QueueInv(s.queues[r]);
    }
  }

  lemma DrainingGoesOn(s0: State, s: State, move: Move, s': State, q: nat)
    requires Inv(s) && CanStep(s, move, s') && s.closer.WaitDrain? && q < |s0.queues| && q < |s.queues|
    requires DrainedSince(s0, s, q)
    ensures q < |s'.queues| && DrainedSince(s0, s', q) && s'.queues[q].worker.Exited?
  {
    assert Accounted(s, q);
    NoWorkerIsLeft(s);
    StepAdds(s, move, s', q);
    if move.Close? && Draining(s, s.closer.i) && s.closer.batch.Some? && s.closer.batch.value != [] {
      DrainConsumed(s, s', s.closer.i);
    }
  }

  lemma {:induction false} DrainedUpTo(states: seq<State>, moves: seq<Move>, a: nat, k: nat, q: nat)
    requires Run(states, moves) && a <= k < |states| && states[a].closer == WaitDrain(0, None)
    requires q < |states[a].queues| && forall l :: a <= l < k ==> states[l].closer.WaitDrain?
    ensures q < |states[k].queues| && DrainedSince(states[a], states[k], q)
    ensures a < k ==> states[k].queues[q].worker.Exited?
    decreases k
  {
    if a < k {
      DrainedUpTo(states, moves, a, k - 1, q);
      DrainedNext(states, moves, states[a], k - 1, q);
    }
  }

  lemma DrainedNext(states: seq<State>, moves: seq<Move>, s0: State, k: nat, q: nat)
    requires Run(states, moves) && k < |moves| && states[k].closer.WaitDrain?
    requires q < |s0.queues| && q < |states[k].queues| && DrainedSince(s0, states[k], q)
    ensures q < |states[k + 1].queues| && DrainedSince(s0, states[k + 1], q) && states[k + 1].queues[q].worker.Exited?
  {
    RunKeepsInv(states, moves, k);
    assert CanStep(states[k], moves[k], states[k + 1]);
    DrainingGoesOn(s0, states[k], moves[k], states[k + 1], q);
  }

  lemma CloserGoesOn(s: State, move: Move, s': State)
    requires CanStep(s, move, s') && !s.closer.Nobody?
    ensures s.closer.WaitJoin? ==> s'.closer.WaitJoin? || s'.closer == WaitDrain(0, None)
    ensures s.closer.WaitDrain? ==> s'.closer.WaitDrain? || s'.closer.Nobody?
    ensures Destroying(s.closer) ==> Destroying(s'.closer)
  {
    if move.Close? {
      CloserJoins(s, s');
    }
  }

  lemma CloserJoins(s: State, s': State)
    requires CanStep(s, Close, s')
    ensures s.closer.WaitJoin? ==> s'.closer.WaitJoin? || s'.closer == WaitDrain(0, None)
    ensures s.closer.WaitDrain? ==> s'.closer.WaitDrain? || s'.closer.Nobody?
    ensures Destroying(s.closer) ==> Destroying(s'.closer)
  {
  }

  predicate Destroying(closer: Closer) {
    closer.Loop? || closer.Join? || closer.Drain? || closer.Final? || closer.Gone?
  }

  /** Once it has begun, the destructor is at work until the pool is gone. */
  lemma {:induction false} DestructorEndsWithThePool(states: seq<State>, moves: seq<Move>, l: nat, k: nat)
    requires Run(states, moves) && l < k < |states| && moves[l] == Destroy
    ensures Destroying(states[k].closer)
    decreases k
  {
    assert CanStep(states[k - 1], moves[k - 1], states[k]);
    if l < k - 1 {
      DestructorEndsWithThePool(states, moves, l, k - 1);
      CloserGoesOn(states[k - 1], moves[k - 1], states[k]);
    }
  }

  /** Since move `w`, a `wait_stop`, the closer joins, or it drains since state `a`. */
  lemma {:induction false} WaitStopPhase(states: seq<State>, moves: seq<Move>, w: nat, k: nat) returns (a: nat)
    requires Run(states, moves) && w < k < |states| && moves[w] == WaitStop
    requires forall m :: w < m <= k ==> !states[m].closer.Nobody?
    ensures states[k].closer.WaitJoin? || states[k].closer.WaitDrain?
    ensures states[k].closer.WaitDrain? ==>
              w < a <= k && states[a].closer == WaitDrain(0, None) && forall m :: a <= m <= k ==> states[m].closer.WaitDrain?
    decreases k
  {
    a := k;
    assert CanStep(states[k - 1], moves[k - 1], states[k]);
    if w < k - 1 {
      var a' := WaitStopPhase(states, moves, w, k - 1);
      CloserGoesOn(states[k - 1], moves[k - 1], states[k]);
      a := if states[k - 1].closer.WaitDrain? then a' else k;
    }
  }

  /** `wait_stop` begins by joining. */
  lemma WaitStopBegins(states: seq<State>, moves: seq<Move>, w: nat)
    requires Run(states, moves) && w < |moves| && moves[w] == WaitStop
    ensures states[w + 1].closer == WaitJoin(0)
  {
    assert CanStep(states[w], moves[w], states[w + 1]);
  }

  /** When the `wait_stop` of move `w` returns, the workers have exited, and every task that was handed to a queue
      before it was resumed in its turn. */
  lemma WaitStopResumesAll(states: seq<State>, moves: seq<Move>, w: nat, k: nat, q: nat, l: nat)
    requires Run(states, moves) && l < w < k < |states| && moves[w] == WaitStop && states[k].closer.Nobody?
    requires forall m :: w < m < k ==> !states[m].closer.Nobody?
    requires moves[l] == Push(q) || moves[l] == RequestStop(q)
    ensures q < |states[k].queues| && states[k].queues[q].worker.Exited?
    ensures var log, turn := states[k].queues[q].log, Asked(moves[..l], q);
            turn < |log| && log[turn] == Promise(states, moves, l, q)
  {
    WaitStopBegins(states, moves, w);
    var a := WaitStopPhase(states, moves, w, k - 1);
    assert CanStep(states[k - 1], moves[k - 1], states[k]);
    CloserGoesOn(states[k - 1], moves[k - 1], states[k]);
    AllDrained(states, moves, a, k, q, l);
  }

  lemma AllDrained(states: seq<State>, moves: seq<Move>, a: nat, k: nat, q: nat, l: nat)
    requires Run(states, moves) && l < a < k < |states| && states[a].closer == WaitDrain(0, None)
    requires (forall m :: a <= m < k ==> states[m].closer.WaitDrain?) && states[k].closer.Nobody?
    requires moves[l] == Push(q) || moves[l] == RequestStop(q)
    ensures q < |states[k].queues| && states[k].queues[q].worker.Exited?
    ensures var log, turn := states[k].queues[q].log, Asked(moves[..l], q);
            turn < |log| && log[turn] == Promise(states, moves, l, q)
  {
    assert CanStep(states[l], moves[l], states[l + 1]);
    QueuesStay(states, moves, l);
    QueuesStay(states, moves, a);
    DrainedUpTo(states, moves, a, k, q);
    ResumedSince(states, moves, a, k, q);
    PromiseOf(states, moves, a, q, l);
  }

  lemma ResumedSince(states: seq<State>, moves: seq<Move>, a: nat, k: nat, q: nat)
    requires Run(states, moves) && a <= k < |states| && q < |states[a].queues| && q < |states[k].queues|
    requires |states[a].queues[q].pushed| <= |states[k].queues[q].done|
    ensures Resumed(Requested(states, moves, a, q)) <= states[k].queues[q].log
  {
    QueuesStay(states, moves, a);
    PushedIsRequested(states, moves, a, q);
    PushedIsRequested(states, moves, k, q);
    PushedPrefix(states, moves, a, k, q);
    EachTaskIsResumedOnceInOrder(states, moves, k, q);
    ResumedOfPrefixes(Requested(states, moves, a, q), states[k].queues[q].done, Requested(states, moves, k, q));
  }

  lemma ResumedOfPrefixes(before: seq<Node>, done: seq<Node>, pushed: seq<Node>)
    requires before <= pushed && done <= pushed && |before| <= |done|
    ensures Resumed(before) <= Resumed(done)
  {
    ResumedPrefix(before, done[|before|..]);
    assert before + done[|before|..] == done;
  }

  lemma {:induction false} PushedPrefix(states: seq<State>, moves: seq<Move>, a: nat, k: nat, q: nat)
    requires a <= k <= |moves| < |states|
    ensures Requested(states, moves, a, q) <= Requested(states, moves, k, q)
    decreases k
  {
    if a < k {
      PushedPrefix(states, moves, a, k - 1, q);
    }
  }
}
