/** The road: coroutines wait while it is closed, and opening it resumes them inline. A resumed coroutine may
close the road again, wait on it again, and open it again inside the walk that resumed it. */
module Roads {

  import opened TaskQueue
  import opened WaitLists
  import opened Waiters
  import Tickets = Waiters

  /** `answers[k]` is what the k-th resumed waiter learned: whether the road was open at that moment. */
  datatype State = State(closed: bool, waiters: Waiters, answers: seq<bool>)

  /** A resumed coroutine returns to the walk before the walk resumes the next one or ends. */
  datatype Move = Close | Open | Wait | ResumeNext | EndWalk

  /** `close` asks for an open road. */
  predicate Allowed(s: State, move: Move) {
    match move
    case Close => !s.closed
    case Open => true
    case Wait => true
    case ResumeNext => CanResume(s.waiters)
    case EndWalk => CanEnd(s.waiters)
  }

  function Next(s: State, move: Move): State
    requires Allowed(s, move)
  {
    match move
    case Close => s.(closed := true)
    case Open => s.(closed := false, waiters := PopAll(s.waiters))
    case Wait => if s.closed then s.(waiters := Park(s.waiters)) else s
    case ResumeNext => s.(waiters := Resume(s.waiters), answers := s.answers + [!s.closed])
    case EndWalk => s.(waiters := End(s.waiters))
  }

  /** The road on the heap; each method is one move of the machine above. */
  class Road {
    const list: WaitList
    var closed: bool
    ghost var answers: seq<bool>

    ghost function Contents(): State
      reads this, list
    {
      State(closed, list.waiters, answers)
    }

    ghost predicate Valid()
      reads this, list, list.queue, list.queue.contents, list.linked
    {
      list.Valid()
    }

    constructor ()
      ensures Valid() && fresh(list) && Contents() == State(false, NOBODY, [])
    {
      list := new WaitList();
      closed, answers := false, [];
    }

    method Close()
      requires Valid() && !closed
      modifies this
      ensures Valid() && Contents() == Next(old(Contents()), Move.Close) && closed
    {
      closed := true;
    }

    /** Begins the walk of `attach_list`; its turns are `ResumeOne`, its end is `EndWalk`. */
    method Open()
      requires Valid()
      modifies this, list, list.queue
      ensures Valid() && Contents() == Next(old(Contents()), Move.Open) && !closed
      ensures list.linked == old(list.linked) && list.nodes == old(list.nodes)
    {
      closed := false;
      list.Pop();
    }

    /** `co_await wait_open()` with the awaiter `node`, true if it continues without suspending. The awaiter may
        be one that a walk has just resumed. */
    method WaitOpen(node: TaskNode) returns (ready: bool)
      requires Valid() && node !in list.linked && !node.pill
      modifies this, list, list.queue, node, if list.queue.first == null then null else list.queue.last
      ensures Valid() && Contents() == Next(old(Contents()), Wait)
      ensures ready == !old(closed) && list.linked == old(list.linked) + if ready then {} else {node}
      ensures list.nodes == old(list.nodes) + if ready then [] else [node]
    {
      ready := !closed;
      if !ready {
        list.Enqueue(node);
      }
    }

    /** Resumes the next waiter of the innermost walk, which learns whether the road is open now. */
    method ResumeOne() returns (node: TaskNode, open: bool)
      requires Valid() && CanResume(list.waiters)
      modifies this, list, list.tops[0]
      ensures Valid() && Contents() == Next(old(Contents()), ResumeNext) && list.nodes == old(list.nodes)
      ensures var t := old(list.waiters.walks[0].rest[0]);
              && t < |list.nodes| && node == list.nodes[t]
              && list.waiters.resumed == old(list.waiters.resumed) + [t]
      ensures open == !closed && closed == old(closed) && answers == old(answers) + [open]
      ensures old(node in list.linked) && list.linked == old(list.linked) - {node}
      ensures node.heard == old(node.heard + [node.status])
    {
      open := !closed;
      answers := answers + [open];
      node := list.ResumeOne();
    }

    method EndWalk()
      requires Valid() && CanEnd(list.waiters)
      modifies this, list
      ensures Valid() && Contents() == Next(old(Contents()), Move.EndWalk) && list.nodes == old(list.nodes)
    {
      list.EndWalk();
    }

    /** What the documentation warns of: a resumed waiter finds the road closed and waits again, with the same
        awaiter, while the walk goes on. It is linked into the list, behind whoever is there, and the walk goes
        on with the one that was behind it. */
    method ResumeAndWaitAgain() returns (node: TaskNode)
      requires Valid() && closed && CanResume(list.waiters)
      modifies this, list, list.queue, list.tops[0], if list.queue.first == null then null else list.queue.last
      ensures Valid() && Contents() == Next(Next(old(Contents()), ResumeNext), Wait)
      ensures list.linked == old(list.linked) && list.nodes == old(list.nodes) + [node]
    {
      var open;
      node, open := ResumeOne();
      var _ := WaitOpen(node);
    }
  }

  // ----- what every step keeps -----

  /** Each parking is resumed or waiting, once; whoever waits in the queue waits at a closed road. */
  ghost predicate Inv(s: State) {
    && Tickets.Valid(s.waiters)
    && (s.waiters.queue != [] ==> s.closed)
    && |s.answers| == |s.waiters.resumed|
  }

  lemma NextKeepsInv(s: State, move: Move)
    requires Inv(s) && Allowed(s, move)
    ensures Inv(Next(s, move))
  {
    match move
    case Close =>
    case Open => PopAllKeepsValid(s.waiters);
    case Wait => ParkKeepsValid(s.waiters);
    case ResumeNext => ResumeKeepsValid(s.waiters);
    case EndWalk => EndKeepsValid(s.waiters);
  }

  ghost predicate Run(states: seq<State>, moves: seq<Move>) {
    && |states| == |moves| + 1
    && states[0] == State(false, NOBODY, [])
    && forall k :: 0 <= k < |moves| ==> Allowed(states[k], moves[k]) && states[k + 1] == Next(states[k], moves[k])
  }

  lemma {:induction false} RunKeepsInv(states: seq<State>, moves: seq<Move>, k: nat)
    requires Run(states, moves) && k < |states|
    ensures Inv(states[k])
  {
    if k > 0 {
      RunKeepsInv(states, moves, k - 1);
      NextKeepsInv(states[k - 1], moves[k - 1]);
    }
  }

  // ----- what the moves alone say -----

  /** A `Close` came after the last `Open`. */
  ghost predicate LeftClosed(moves: seq<Move>) {
    exists l :: 0 <= l < |moves| && moves[l] == Close && forall m :: l < m < |moves| ==> moves[m] != Open
  }

  lemma LeftClosedNext(moves: seq<Move>, move: Move)
    ensures LeftClosed(moves + [move]) <==> move == Close || (move != Open && LeftClosed(moves))
  {
    var all := moves + [move];
    assert all[|moves|] == move && forall m :: 0 <= m < |moves| ==> all[m] == moves[m];
    if LeftClosed(all) && move != Close {
      var l :| 0 <= l < |all| && all[l] == Close && forall m :: l < m < |all| ==> all[m] != Open;
      assert moves[l] == Close && move != Open;
    }
    if LeftClosed(moves) && move != Open {
      var l :| 0 <= l < |moves| && moves[l] == Close && forall m :: l < m < |moves| ==> moves[m] != Open;
      assert all[l] == Close;
    }
  }

  /** How many waited at a closed road. */
  ghost function Waits(moves: seq<Move>): nat {
    if moves == [] then 0
    else
      var before, last := moves[..|moves| - 1], moves[|moves| - 1];
      Waits(before) + if last == Wait && LeftClosed(before) then 1 else 0
  }

  ghost function Made(moves: seq<Move>, move: Move): nat {
    if moves == [] then 0
    else Made(moves[..|moves| - 1], move) + if moves[|moves| - 1] == move then 1 else 0
  }

  /** The road is closed as the moves left it, each wait at a closed road is a parking, each opening a walk,
      and each turn of a walk resumes one. */
  ghost predicate Accords(s: State, moves: seq<Move>) {
    && (s.closed <==> LeftClosed(moves))
    && s.waiters.parked == Waits(moves)
    && |s.waiters.resumed| == |s.answers| == Made(moves, ResumeNext)
    && |s.waiters.walks| == Made(moves, Open) - Made(moves, EndWalk)
  }

  lemma NextAccords(s: State, moves: seq<Move>, move: Move)
    requires Accords(s, moves) && Allowed(s, move)
    ensures Accords(Next(s, move), moves + [move])
  {
    var all := moves + [move];
    LeftClosedNext(moves, move);
    assert all[|all| - 1] == move && all[..|all| - 1] == moves;
    match move
    case Close =>
    case Open =>
    case Wait =>
    case ResumeNext =>
    case EndWalk =>
  }

  lemma {:induction false} StateIsWhatTheMovesSay(states: seq<State>, moves: seq<Move>, k: nat)
    requires Run(states, moves) && k < |states|
    ensures Accords(states[k], moves[..k])
    ensures states[k].closed <==> LeftClosed(moves[..k])
  {
    if k > 0 {
      StateIsWhatTheMovesSay(states, moves, k - 1);
      NextAccords(states[k - 1], moves[..k - 1], moves[k - 1]);
      assert moves[..k] == moves[..k - 1] + [moves[k - 1]];
    }
  }

  /** What a resumed waiter found is never written again. */
  lemma NextKeepsTurns(s: State, move: Move)
    requires Allowed(s, move)
    ensures s.answers <= Next(s, move).answers && s.waiters.resumed <= Next(s, move).waiters.resumed
    ensures move == ResumeNext ==>
      && Next(s, move).answers == s.answers + [!s.closed]
      && Next(s, move).waiters.resumed == s.waiters.resumed + [s.waiters.walks[0].rest[0]]
  {
  }

  lemma {:induction false} TurnsStay(states: seq<State>, moves: seq<Move>, l: nat, k: nat)
    requires Run(states, moves) && l <= k < |states|
    ensures states[l].answers <= states[k].answers && states[l].waiters.resumed <= states[k].waiters.resumed
  {
    if l < k {
      TurnsStay(states, moves, l, k - 1);
      NextKeepsTurns(states[k - 1], moves[k - 1]);
    }
  }

  /** The waiter resumed at step `l` got, for good, the answer that the road is open if and only if no `Close`
      came after the last `Open` until then. */
  lemma AnswerIsTheRoad(states: seq<State>, moves: seq<Move>, k: nat, l: nat)
    requires Run(states, moves) && l < k < |states| && moves[l] == ResumeNext
    ensures CanResume(states[l].waiters)
    ensures var turn := Made(moves[..l], ResumeNext);
            && turn < |states[k].answers| == |states[k].waiters.resumed|
            && states[k].waiters.resumed[turn] == states[l].waiters.walks[0].rest[0]
            && (states[k].answers[turn] <==> !LeftClosed(moves[..l]))
  {
    StateIsWhatTheMovesSay(states, moves, l);
    NextKeepsTurns(states[l], moves[l]);
    TurnsStay(states, moves, l + 1, k);
    assert |states[k].answers| == |states[k].waiters.resumed| by {
      RunKeepsInv(states, moves, k);
    }
  }

  /** When no walk is going on at an open road, everyone who ever parked was resumed, once per parking. */
  lemma EveryoneIsResumedOnce(states: seq<State>, moves: seq<Move>, k: nat, t: nat)
    requires Run(states, moves) && k < |states| && !LeftClosed(moves[..k])
    requires Made(moves[..k], Open) == Made(moves[..k], EndWalk)
    ensures multiset(states[k].waiters.resumed)[t] == if t < Waits(moves[..k]) then 1 else 0
  {
    RunKeepsInv(states, moves, k);
    StateIsWhatTheMovesSay(states, moves, k);
    assert Places(states[k].waiters, t) == if t < states[k].waiters.parked then 1 else 0;
  }

  /** A walk resumes, in the order of their parking, those who had parked before it began: one who parks again
      while a walk is going on gets a ticket that this walk will not resume. */
  lemma WalkResumesEarlierParkings(states: seq<State>, moves: seq<Move>, k: nat, i: nat, j: nat)
    requires Run(states, moves) && k < |states| && i < |states[k].waiters.walks| && j < |states[k].waiters.walks[i].rest|
    ensures var w := states[k].waiters;
            && w.walks[i].rest[j] < w.walks[i].limit <= w.parked
            && (j > 0 ==> w.walks[i].rest[j - 1] < w.walks[i].rest[j])
  {
    RunKeepsInv(states, moves, k);
    var walk := states[k].waiters.walks[i];
    assert walk in states[k].waiters.walks && walk.rest[j] in walk.rest;
  }

  /** The road is opened while some wait in the queue and others are popped but not resumed. */
  predicate Overtakes(s: State, move: Move) {
    move == Open && s.waiters.queue != [] && Popped(s.waiters.walks) != []
  }

  /** Across all walks, everyone is resumed in the order of parking if and only if the road is never opened
      inside a walk while waiters are left in both places. */
  lemma {:induction false} FifoIffNoOvertaking(states: seq<State>, moves: seq<Move>)
    requires Run(states, moves)
    ensures (forall k :: 0 <= k < |states| ==> Fifo(states[k].waiters)) <==>
            (forall k :: 0 <= k < |moves| ==> !Overtakes(states[k], moves[k]))
  {
    if forall k :: 0 <= k < |states| ==> Fifo(states[k].waiters) {
      forall k | 0 <= k < |moves|
        ensures !Overtakes(states[k], moves[k])
      {
        RunKeepsInv(states, moves, k);
        NextFifo(states[k], moves[k]);
        assert Fifo(states[k + 1].waiters);
      }
    }
    if forall k :: 0 <= k < |moves| ==> !Overtakes(states[k], moves[k]) {
      forall k | 0 <= k < |states|
        ensures Fifo(states[k].waiters)
      {
        FifoUpTo(states, moves, k);
      }
    }
  }

  lemma {:induction false} FifoUpTo(states: seq<State>, moves: seq<Move>, k: nat)
    requires Run(states, moves) && k < |states| && forall l :: 0 <= l < k ==> !Overtakes(states[l], moves[l])
    ensures Fifo(states[k].waiters)
  {
    if k > 0 {
      FifoUpTo(states, moves, k - 1);
      RunKeepsInv(states, moves, k - 1);
      NextFifo(states[k - 1], moves[k - 1]);
    }
  }

  lemma NextFifo(s: State, move: Move)
    requires Inv(s) && Allowed(s, move) && Fifo(s.waiters)
    ensures Fifo(Next(s, move).waiters) <==> !Overtakes(s, move)
  {
    match move
    case Close =>
    case Open => PopAllKeepsFifo(s.waiters);
    case Wait => ParkKeepsFifo(s.waiters);
    case ResumeNext => ResumeKeepsFifo(s.waiters);
    case EndWalk => EndKeepsFifo(s.waiters);
  }

  ghost predicate Reachable(s: State) {
    exists states: seq<State>, moves: seq<Move> :: Run(states, moves) && states[|moves|] == s
  }

  lemma ReachableNext(s: State, move: Move)
    requires Reachable(s) && Allowed(s, move)
    ensures Reachable(Next(s, move))
  {
    var states: seq<State>, moves: seq<Move> :| Run(states, moves) && states[|moves|] == s;
    assert Run(states + [Next(s, move)], moves + [move]);
  }

  /** Two waiters park, the road is opened, and the first of them is resumed. */
  lemma OneOfTwoResumed() returns (s: State)
    ensures Reachable(s) && !s.closed && s.waiters == Waiters([], [Walk([1], 2)], [0], 2)
  {
    var s0 := State(false, NOBODY, []);
    assert Run([s0], []) && [s0][0] == s0;
    ReachableNext(s0, Close);
    var s1 := Next(s0, Close);
    ReachableNext(s1, Wait);
    var s2 := Next(s1, Wait);
    ReachableNext(s2, Wait);
    var s3 := Next(s2, Wait);
    ReachableNext(s3, Open);
    var s4 := Next(s3, Open);
    assert s3.waiters.queue == [0, 1];
    assert s4.waiters.walks == [Walk([0, 1], 2)];
    ReachableNext(s4, ResumeNext);
    s := Next(s4, ResumeNext);
    assert [0, 1][1..] == [1] && s.waiters.resumed == [0] && s.waiters.walks == [Walk([1], 2)];
  }

  /** Such an overtaking happens: the first waiter closes the road, another one parks, and the road is opened
      again, which resumes that one before the second. */
  lemma OvertakingHappens()
    ensures exists s :: Reachable(s) && s.waiters.resumed == [0, 2] && 1 in Popped(s.waiters.walks)
  {
    var s5 := OneOfTwoResumed();
    ReachableNext(s5, Close);
    var s6 := Next(s5, Close);
    ReachableNext(s6, Wait);
    var s7 := Next(s6, Wait);
    ReachableNext(s7, Open);
    var s8 := Next(s7, Open);
    assert s7.waiters.queue == [2];
    assert s8.waiters.walks == [Walk([2], 3), Walk([1], 2)];
    ReachableNext(s8, ResumeNext);
    var s9 := Next(s8, ResumeNext);
    assert s9.waiters.resumed == [0, 2] && s9.waiters.walks[0].rest == [];
    assert s9.waiters.walks[1..] == [Walk([1], 2)];
    assert 1 in Popped([Walk([1], 2)]);
  }
}
