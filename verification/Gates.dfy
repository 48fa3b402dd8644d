/** The gate: operations enter and leave, and whoever closes it waits until nobody is inside. The last to leave
resumes those who wait inline, and what they do happens inside that walk. */
module Gates {

  import opened TaskQueue
  import opened WaitLists
  import opened Waiters
  import Tickets = Waiters

  /** `seen[k]` is what the k-th resumed waiter found: whether the gate was closed, and the count. */
  datatype State = State(count: nat, closed: bool, waiters: Waiters, seen: seq<(bool, nat)>)

  /** A resumed coroutine returns to the walk before the walk resumes the next one or ends. */
  datatype Move = TryEnter | Leave | Close | Reopen | ResumeNext | EndWalk

  /** `leave` needs an `enter`; `reopen` needs what it asserts: nobody inside and nobody in the queue. */
  predicate Allowed(s: State, move: Move) {
    match move
    case TryEnter => true
    case Leave => s.count > 0
    case Close => true
    case Reopen => s.count == 0 && s.waiters.queue == []
    case ResumeNext => CanResume(s.waiters)
    case EndWalk => CanEnd(s.waiters)
  }

  /** `Close` is `co_await close()`, which goes on at once if nobody is inside. */
  function Next(s: State, move: Move): State
    requires Allowed(s, move)
  {
    match move
    case TryEnter => if s.closed then s else s.(count := s.count + 1)
    case Leave =>
      var left := s.(count := s.count - 1);
      if s.closed && left.count == 0 then left.(waiters := PopAll(s.waiters)) else left
    case Close =>
      if s.count == 0 then s.(closed := true) else s.(closed := true, waiters := Park(s.waiters))
    case Reopen => s.(closed := false)
    case ResumeNext => s.(waiters := Resume(s.waiters), seen := s.seen + [(s.closed, s.count)])
    case EndWalk => s.(waiters := End(s.waiters))
  }

  /** The gate on the heap; each method is one move of the machine above. */
  class Gate {
    const list: WaitList
    var count: nat
    var closeRequested: bool
    ghost var seen: seq<(bool, nat)>

    ghost function Contents(): State
      reads this, list
    {
      State(count, closeRequested, list.waiters, seen)
    }

    ghost predicate Valid()
      reads this, list, list.queue, list.queue.contents, list.linked
    {
      list.Valid()
    }

    constructor ()
      ensures Valid() && fresh(list) && Contents() == State(0, false, NOBODY, [])
    {
      list := new WaitList();
      count, closeRequested, seen := 0, false, [];
    }

    method Enter() returns (entered: bool)
      requires Valid()
      modifies this
      ensures Valid() && Contents() == Next(old(Contents()), TryEnter)
      ensures entered == !old(closeRequested) && closeRequested == old(closeRequested)
      ensures count == old(count) + if entered then 1 else 0
    {
      entered := !closeRequested;
      if entered {
        count := count + 1;
      }
    }

    /** The last to leave a closed gate begins the walk; its turns are `ResumeOne`, its end is `EndWalk`. */
    method Exit()
      requires Valid() && count > 0
      modifies this, list, list.queue
      ensures Valid() && Contents() == Next(old(Contents()), Leave) && list.nodes == old(list.nodes)
      ensures count == old(count) - 1 && closeRequested == old(closeRequested)
    {
      count := count - 1;
      if closeRequested && count == 0 {
        list.Pop();
      }
    }

    /** `co_await close()` with the awaiter `node`, true if it continues without suspending. */
    method CloseGate(node: TaskNode) returns (ready: bool)
      requires Valid() && node !in list.linked && !node.pill
      modifies this, list, list.queue, node, if list.queue.first == null then null else list.queue.last
      ensures Valid() && Contents() == Next(old(Contents()), Close)
      ensures closeRequested && count == old(count)
      ensures ready == (count == 0) && list.nodes == old(list.nodes) + if ready then [] else [node]
    {
      closeRequested := true;
      ready := count == 0;
      if !ready {
        list.Enqueue(node);
      }
    }

    /** What `reopen` asserts is what it asks for. */
    method ReopenGate()
      requires Valid() && count == 0 && list.queue.first == null
      modifies this
      ensures old(Contents().waiters.queue) == []
      ensures Valid() && Contents() == Next(old(Contents()), Reopen)
      ensures !closeRequested && count == 0
    {
      closeRequested := false;
    }

    /** Resumes the next waiter of the innermost walk. */
    method ResumeOne() returns (node: TaskNode)
      requires Valid() && CanResume(list.waiters)
      modifies this, list, list.tops[0]
      ensures Valid() && Contents() == Next(old(Contents()), ResumeNext) && list.nodes == old(list.nodes)
      ensures var t := old(list.waiters.walks[0].rest[0]);
              && t < |list.nodes| && node == list.nodes[t]
              && list.waiters.resumed == old(list.waiters.resumed) + [t]
      ensures seen == old(seen) + [(closeRequested, count)]
      ensures node.heard == old(node.heard + [node.status])
    {
      seen := seen + [(closeRequested, count)];
      node := list.ResumeOne();
    }

    method EndWalk()
      requires Valid() && CanEnd(list.waiters)
      modifies this, list
      ensures Valid() && Contents() == Next(old(Contents()), Move.EndWalk) && list.nodes == old(list.nodes)
    {
      list.EndWalk();
    }
  }

  // ----- what every step keeps -----

  /** Each parking is resumed or waiting, once; whoever waits in the queue waits for somebody inside. */
  ghost predicate Inv(s: State) {
    && Tickets.Valid(s.waiters)
    && (s.waiters.queue != [] ==> s.closed && s.count > 0)
    && |s.seen| == |s.waiters.resumed|
  }

  lemma NextKeepsInv(s: State, move: Move)
    requires Inv(s) && Allowed(s, move)
    ensures Inv(Next(s, move))
  {
    match move
    case TryEnter =>
    case Leave => PopAllKeepsValid(s.waiters);
    case Close => ParkKeepsValid(s.waiters);
    case Reopen =>
    case ResumeNext => ResumeKeepsValid(s.waiters);
    case EndWalk => EndKeepsValid(s.waiters);
  }

  ghost predicate Run(states: seq<State>, moves: seq<Move>) {
    && |states| == |moves| + 1
    && states[0] == State(0, false, NOBODY, [])
    && forall k :: 0 <= k < |moves| ==> Allowed(states[k], moves[k]) && states[k + 1] == Next(states[k], moves[k])
  }

  lemma {:induction false} RunKeepsInv(states: seq<State>, moves: seq<Move>, k: nat)
    requires Run(states, moves) && k < |states|
    ensures Inv(states[k])
  {
    if k > 0 {
      RunKeepsInv(states, moves, k - 1);
      NextKeepsInv(states[k - 1], moves[k - 1]);
    }
  }

  // ----- what the moves alone say -----

  /** A `Close` came after the last `Reopen`. */
  ghost predicate LeftClosed(moves: seq<Move>) {
    exists l :: 0 <= l < |moves| && moves[l] == Close && forall m :: l < m < |moves| ==> moves[m] != Reopen
  }

  lemma LeftClosedNext(moves: seq<Move>, move: Move)
    ensures LeftClosed(moves + [move]) <==> move == Close || (move != Reopen && LeftClosed(moves))
  {
    var all := moves + [move];
    assert all[|moves|] == move && forall m :: 0 <= m < |moves| ==> all[m] == moves[m];
    if LeftClosed(all) && move != Close {
      var l :| 0 <= l < |all| && all[l] == Close && forall m :: l < m < |all| ==> all[m] != Reopen;
      assert moves[l] == Close && move != Reopen;
    }
    if LeftClosed(moves) && move != Reopen {
      var l :| 0 <= l < |moves| && moves[l] == Close && forall m :: l < m < |moves| ==> moves[m] != Reopen;
      assert all[l] == Close;
    }
  }

  ghost function Made(moves: seq<Move>, move: Move): nat {
    if moves == [] then 0
    else Made(moves[..|moves| - 1], move) + if moves[|moves| - 1] == move then 1 else 0
  }

  /** How many found the gate open when they tried to enter. */
  ghost function Entries(moves: seq<Move>): nat {
    if moves == [] then 0
    else
      var before, last := moves[..|moves| - 1], moves[|moves| - 1];
      Entries(before) + if last == TryEnter && !LeftClosed(before) then 1 else 0
  }

  /** How many of them have not left. */
  ghost function Inside(moves: seq<Move>): int {
    Entries(moves) - Made(moves, Leave)
  }

  /** How many closed the gate while somebody was inside. */
  ghost function Parkings(moves: seq<Move>): nat {
    if moves == [] then 0
    else
      var before, last := moves[..|moves| - 1], moves[|moves| - 1];
      Parkings(before) + if last == Close && Inside(before) != 0 then 1 else 0
  }

  /** How often the last one inside left a closed gate. */
  ghost function Drainings(moves: seq<Move>): nat {
    if moves == [] then 0
    else
      var before, last := moves[..|moves| - 1], moves[|moves| - 1];
      Drainings(before) + if last == Leave && LeftClosed(before) && Inside(before) == 1 then 1 else 0
  }

  /** The gate is closed as the moves left it, the count is who entered and has not left, and waiters park
      and walks begin accordingly. */
  ghost predicate Accords(s: State, moves: seq<Move>) {
    && (s.closed <==> LeftClosed(moves))
    && s.count == Inside(moves)
    && s.waiters.parked == Parkings(moves)
    && |s.waiters.resumed| == |s.seen| == Made(moves, ResumeNext)
    && |s.waiters.walks| == Drainings(moves) - Made(moves, EndWalk)
  }

  lemma NextAccords(s: State, moves: seq<Move>, move: Move)
    requires Accords(s, moves) && Allowed(s, move)
    ensures Accords(Next(s, move), moves + [move])
  {
    var all := moves + [move];
    LeftClosedNext(moves, move);
    assert all[|all| - 1] == move && all[..|all| - 1] == moves;
    match move
    case TryEnter =>
    case Leave =>
    case Close =>
    case Reopen =>
    case ResumeNext =>
    case EndWalk =>
  }

  lemma {:induction false} StateIsWhatTheMovesSay(states: seq<State>, moves: seq<Move>, k: nat)
    requires Run(states, moves) && k < |states|
    ensures Accords(states[k], moves[..k])
    ensures states[k].closed <==> LeftClosed(moves[..k])
    ensures states[k].count == Inside(moves[..k])
  {
    if k > 0 {
      StateIsWhatTheMovesSay(states, moves, k - 1);
      NextAccords(states[k - 1], moves[..k - 1], moves[k - 1]);
      assert moves[..k] == moves[..k - 1] + [moves[k - 1]];
    }
  }

  /** What a resumed waiter found is never written again. */
  lemma NextKeepsTurns(s: State, move: Move)
    requires Allowed(s, move)
    ensures s.seen <= Next(s, move).seen && s.waiters.resumed <= Next(s, move).waiters.resumed
    ensures move == ResumeNext ==>
      && Next(s, move).seen == s.seen + [(s.closed, s.count)]
      && Next(s, move).waiters.resumed == s.waiters.resumed + [s.waiters.walks[0].rest[0]]
  {
  }

  lemma {:induction false} TurnsStay(states: seq<State>, moves: seq<Move>, l: nat, k: nat)
    requires Run(states, moves) && l <= k < |states|
    ensures states[l].seen <= states[k].seen && states[l].waiters.resumed <= states[k].waiters.resumed
  {
    if l < k {
      TurnsStay(states, moves, l, k - 1);
      NextKeepsTurns(states[k - 1], moves[k - 1]);
    }
  }

  /** What the waiter resumed at step `l` found: whether a `Close` came after the last `Reopen` until then,
      and how many had entered and not left. */
  lemma SeenIsTheGate(states: seq<State>, moves: seq<Move>, k: nat, l: nat)
    requires Run(states, moves) && l < k < |states| && moves[l] == ResumeNext
    ensures CanResume(states[l].waiters) && Inside(moves[..l]) >= 0
    ensures var turn := Made(moves[..l], ResumeNext);
            && turn < |states[k].seen| == |states[k].waiters.resumed|
            && states[k].waiters.resumed[turn] == states[l].waiters.walks[0].rest[0]
            && states[k].seen[turn] == (LeftClosed(moves[..l]), Inside(moves[..l]))
  {
    StateIsWhatTheMovesSay(states, moves, l);
    NextKeepsTurns(states[l], moves[l]);
    TurnsStay(states, moves, l + 1, k);
    assert |states[k].seen| == |states[k].waiters.resumed| by {
      RunKeepsInv(states, moves, k);
    }
  }

  /** When nobody is inside and no walk is going on, everyone who ever parked was resumed, once per parking. */
  lemma EveryoneIsResumedOnce(states: seq<State>, moves: seq<Move>, k: nat, t: nat)
    requires Run(states, moves) && k < |states|
    requires Inside(moves[..k]) == 0 && Drainings(moves[..k]) == Made(moves[..k], EndWalk)
    ensures multiset(states[k].waiters.resumed)[t] == if t < Parkings(moves[..k]) then 1 else 0
  {
    RunKeepsInv(states, moves, k);
    StateIsWhatTheMovesSay(states, moves, k);
    assert Places(states[k].waiters, t) == if t < states[k].waiters.parked then 1 else 0;
  }

  // ----- what a waiter finds -----

  /** Whoever is popped and not yet resumed still waits for `close`: the gate is closed and nobody is inside. */
  ghost predicate Settled(s: State) {
    Popped(s.waiters.walks) != [] ==> s.closed && s.count == 0
  }

  /** `reopen` passes its assertion although somebody who was popped is not yet resumed. */
  predicate ReopensTooEarly(s: State, move: Move) {
    move == Reopen && Popped(s.waiters.walks) != []
  }

  ghost predicate Kept(s: State) {
    Settled(s) && Fifo(s.waiters) && forall k :: 0 <= k < |s.seen| ==> s.seen[k] == (true, 0)
  }

  lemma NextKept(s: State, move: Move)
    requires Inv(s) && Allowed(s, move) && Kept(s)
    ensures Settled(Next(s, move)) <==> !ReopensTooEarly(s, move)
    ensures !ReopensTooEarly(s, move) ==> Kept(Next(s, move))
  {
    match move
    case TryEnter =>
    case Leave =>
      PopAllKeepsValid(s.waiters);
      PopAllKeepsFifo(s.waiters);
    case Close => ParkKeepsFifo(s.waiters);
    case Reopen =>
    case ResumeNext =>
      ResumePopped(s.waiters);
      ResumeKeepsFifo(s.waiters);
    case EndWalk =>
      EndKeepsValid(s.waiters);
      EndKeepsFifo(s.waiters);
  }

  lemma {:induction false} KeptUpTo(states: seq<State>, moves: seq<Move>, k: nat)
    requires Run(states, moves) && k < |states| && forall l :: 0 <= l < k ==> !ReopensTooEarly(states[l], moves[l])
    ensures Kept(states[k])
  {
    if k > 0 {
      KeptUpTo(states, moves, k - 1);
      RunKeepsInv(states, moves, k - 1);
      NextKept(states[k - 1], moves[k - 1]);
    }
  }

  /** The gate stays closed and empty for everybody who is about to be resumed if and only if it is never
      reopened while somebody popped is not yet resumed, as the documented precondition "no one waits for
      `close`" has it; the assertion in `reopen` looks at the queue only. */
  lemma SettledIffNotReopenedTooEarly(states: seq<State>, moves: seq<Move>)
    requires Run(states, moves)
    ensures (forall k :: 0 <= k < |states| ==> Settled(states[k])) <==>
            (forall k :: 0 <= k < |moves| ==> !ReopensTooEarly(states[k], moves[k]))
  {
    if forall k :: 0 <= k < |states| ==> Settled(states[k]) {
      forall k | 0 <= k < |moves|
        ensures !ReopensTooEarly(states[k], moves[k])
      {
        assert Settled(states[k]) && Settled(states[k + 1]);
      }
    }
    if forall k :: 0 <= k < |moves| ==> !ReopensTooEarly(states[k], moves[k]) {
      forall k | 0 <= k < |states|
        ensures Settled(states[k])
      {
        KeptUpTo(states, moves, k);
      }
    }
  }

  /** Then every waiter finds the gate closed with nobody inside, and all are resumed in the order in which
      they parked. */
  lemma WaitersFindTheGateClosed(states: seq<State>, moves: seq<Move>, k: nat, i: nat)
    requires Run(states, moves) && k < |states| && i < |states[k].waiters.resumed|
    requires forall l :: 0 <= l < |moves| ==> !ReopensTooEarly(states[l], moves[l])
    ensures |states[k].seen| == |states[k].waiters.resumed| && states[k].seen[i] == (true, 0)
    ensures states[k].waiters.resumed[i] == i
  {
    RunKeepsInv(states, moves, k);
    KeptUpTo(states, moves, k);
    var w := states[k].waiters;
    FifoMeans(w, i);
    assert (w.resumed + Waiting(w))[i] == w.resumed[i];
  }

  /** Then a waiter is resumed only when every successful entry was left, and the gate was closed since. */
  lemma ResumedWhenEveryoneLeft(states: seq<State>, moves: seq<Move>, l: nat)
    requires Run(states, moves) && l < |moves| && moves[l] == ResumeNext
    requires forall m :: 0 <= m < l ==> !ReopensTooEarly(states[m], moves[m])
    ensures Entries(moves[..l]) == Made(moves[..l], Leave) && LeftClosed(moves[..l])
  {
    KeptUpTo(states, moves, l);
    StateIsWhatTheMovesSay(states, moves, l);
    assert Allowed(states[l], moves[l]);
    ResumePopped(states[l].waiters);
  }

  ghost predicate Reachable(s: State) {
    exists states: seq<State>, moves: seq<Move> :: Run(states, moves) && states[|moves|] == s
  }

  lemma ReachableNext(s: State, move: Move)
    requires Reachable(s) && Allowed(s, move)
    ensures Reachable(Next(s, move))
  {
    var states: seq<State>, moves: seq<Move> :| Run(states, moves) && states[|moves|] == s;
    assert Run(states + [Next(s, move)], moves + [move]);
  }

  /** Two wait for the gate to close, the last one inside leaves, and the first of the two is resumed. */
  lemma OneOfTwoResumed() returns (s: State)
    ensures Reachable(s) && s.count == 0 && s.waiters.queue == [] && s.waiters.resumed == [0]
    ensures s.waiters.walks == [Walk([1], 2)] && s.seen == [(true, 0)]
  {
    var s0 := State(0, false, NOBODY, []);
    assert Run([s0], []) && [s0][0] == s0;
    ReachableNext(s0, TryEnter);
    var s1 := Next(s0, TryEnter);
    ReachableNext(s1, Close);
    var s2 := Next(s1, Close);
    ReachableNext(s2, Close);
    var s3 := Next(s2, Close);
    assert s3.waiters.queue == [0, 1];
    ReachableNext(s3, Leave);
    var s4 := Next(s3, Leave);
    assert s4.waiters.walks == [Walk([0, 1], 2)];
    ReachableNext(s4, ResumeNext);
    s := Next(s4, ResumeNext);
    assert [0, 1][1..] == [1] && s.waiters.walks == [Walk([1], 2)];
  }

  /** The assertion alone does not suffice: the first waiter reopens the gate and somebody enters, which the
      second waiter finds. */
  lemma AssertionOfReopenIsTooWeak()
    ensures exists s :: Reachable(s) && s.seen == [(true, 0), (false, 1)]
  {
    var s5 := OneOfTwoResumed();
    ReachableNext(s5, Reopen);
    var s6 := Next(s5, Reopen);
    ReachableNext(s6, TryEnter);
    var s7 := Next(s6, TryEnter);
    ReachableNext(s7, ResumeNext);
    var s8 := Next(s7, ResumeNext);
    assert s8.seen == [(true, 0), (false, 1)];
  }
}
