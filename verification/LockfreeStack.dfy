/** The intrusive lock-free stack, as interleaved atomic steps of any number of threads.

Every node is on the stack or in the hands of one thread. A thread pushes a chain it holds by storing
the top it loaded into the `next` field of the last node and then comparing and exchanging, as often as
needed. Nodes may be popped and pushed again while another thread stands between its load and its
exchange. The steps work on `top`, `next` and the threads' pointers only; `list` and `held` say which
nodes the stack and each thread own. */
module LockfreeStack {

  import Sums

  type Id = nat

  datatype Ptr = Null | ClosedMarker | Node(id: Id)

  /** The `next` field of a node, null until it is first written. */
  function Next(next: map<Id, Ptr>, n: Id): Ptr {
    if n in next then next[n] else Null
  }

  /** Following `next` from `p` leads through `list` to null. */
  ghost predicate Linked(next: map<Id, Ptr>, p: Ptr, list: seq<Id>)
    decreases list
  {
    if list == [] then p == Null
    else p == Node(list[0]) && Linked(next, Next(next, list[0]), list[1..])
  }

  datatype Thread = Thread(held: seq<Id>, pc: Pc)

  /** Where a thread is in an operation, with the first and the last node of the chain it pushes.
      `checked` is true in try_push, which looks for the closed marker. */
  datatype Pc =
    | Idle
    | Walk(first: Id, last: Id)                     // push_stack looks for the last node
    | Load(checked: bool, first: Id, last: Id)      // about to load the top
    | Check(first: Id, last: Id)                    // did try_push read the closed marker?
    | Exchange(checked: bool, first: Id, last: Id)  // about to compare and exchange

  datatype State = State(top: Ptr, next: map<Id, Ptr>, list: seq<Id>, threads: seq<Thread>)

  /** What thread `i` does next; `spurious` lets a weak compare-exchange fail for no reason. */
  datatype Move =
    | Push(i: nat)
    | TryPush(i: nat)
    | PushStack(i: nat)
    | Continue(i: nat, spurious: bool)
    | TryPopAll(i: nat)
    | Close(i: nat)
    | Split(i: nat)  // the thread takes the first node of its chain by itself

  /** The thread that moves, and what the operation asks of its caller: a node or a chain of its own, and
      for the unchecked operations a stack that is not closed. The chain that push_stack asks for is what
      try_pop_all returns (`PoppedChainIsAStack`). */
  ghost predicate Allowed(s: State, move: Move) {
    && move.i < |s.threads|
    && var thread := s.threads[move.i];
       match move
       case Push(_) => thread.pc == Idle && |thread.held| == 1
       case TryPush(_) => thread.pc == Idle && |thread.held| == 1
       case PushStack(_) => thread.pc == Idle && thread.held != [] && Linked(s.next, Node(thread.held[0]), thread.held)
       case Continue(_, _) => thread.pc != Idle && (Unchecked(thread.pc) ==> s.top != ClosedMarker)
       case TryPopAll(_) => thread.pc == Idle && thread.held == [] && s.top != ClosedMarker
       case Close(_) => thread.pc == Idle && thread.held == []
       case Split(_) => thread.pc == Idle && |thread.held| > 1
  }

  predicate Unchecked(pc: Pc) {
    (pc.Load? || pc.Exchange?) && !pc.checked
  }

  ghost function Step(s: State, move: Move): State
    requires Allowed(s, move)
  {
    var i := move.i;
    var held := s.threads[i].held;
    match move
    case Push(_) => Goto(s, i, Load(false, held[0], held[0]))
    case TryPush(_) => Goto(s, i, Load(true, held[0], held[0]))
    case PushStack(_) => Goto(s, i, Walk(held[0], held[0]))
    case Continue(_, spurious) => Advance(s, i, s.threads[i].pc, spurious)
    case TryPopAll(_) => Pop(s, i, Null)
    case Close(_) => Pop(s, i, ClosedMarker)
    case Split(_) => s.(threads := s.threads[i := Thread(held[1..], Idle)] + [Thread([held[0]], Idle)])
  }

  ghost function Goto(s: State, i: nat, pc: Pc): State
    requires i < |s.threads|
  {
    s.(threads := s.threads[i := s.threads[i].(pc := pc)])
  }

  /** One more step of the operation that thread `i` is in. */
  ghost function Advance(s: State, i: nat, pc: Pc, spurious: bool): State
    requires i < |s.threads|
  {
    match pc
    case Idle => s
    case Walk(first, last) =>
      (match Next(s.next, last)
       case Node(n) => Goto(s, i, Walk(first, n))
       case _ => Goto(s, i, Load(false, first, last)))
    case Load(checked, first, last) => Observe(s, i, checked, first, last)
    case Check(first, last) =>
      Goto(s, i, if Next(s.next, last) == ClosedMarker then Idle else Exchange(true, first, last))
    case Exchange(checked, first, last) =>
      if s.top == Next(s.next, last) && !spurious then Cons(s, i, first) else Observe(s, i, checked, first, last)
  }

  /** The observed top is stored in the last node, by the load or by a failed exchange. */
  ghost function Observe(s: State, i: nat, checked: bool, first: Id, last: Id): State
    requires i < |s.threads|
  {
    Goto(s.(next := s.next[last := s.top]), i, if checked then Check(first, last) else Exchange(false, first, last))
  }

  ghost function Cons(s: State, i: nat, first: Id): State
    requires i < |s.threads|
  {
    s.(top := Node(first), list := s.threads[i].held + s.list, threads := s.threads[i := Thread([], Idle)])
  }

  ghost function Pop(s: State, i: nat, top: Ptr): State
    requires i < |s.threads|
  {
    s.(top := top, list := [], threads := s.threads[i := Thread(s.list, Idle)])
  }

  // ----- the invariant -----

  ghost function HeldBy(n: Id): Thread -> nat {
    (thread: Thread) => multiset(thread.held)[n]
  }

  /** How often the chains in the threads' hands contain node `n`. */
  ghost function Held(threads: seq<Thread>, n: Id): nat {
    Sums.Sum(threads, HeldBy(n))
  }

  /** How often node `n` is in the system: on the stack or held by a thread. */
  ghost function Copies(s: State, n: Id): nat {
    multiset(s.list)[n] + Held(s.threads, n)
  }

  ghost predicate SameNodes(s: State, s': State) {
    forall n :: Copies(s', n) == Copies(s, n)
  }

  ghost predicate Inv(s: State) {
    && (if s.top == ClosedMarker then s.list == [] else Linked(s.next, s.top, s.list))
    && (forall n :: Copies(s, n) <= 1)
    && (forall i :: 0 <= i < |s.threads| ==> ThreadInv(s.next, s.threads[i]))
  }

  /** The nodes of a held chain are linked up to the last one, whose link may be anything; a thread that
      is about to exchange did not read the closed marker. */
  ghost predicate ThreadInv(next: map<Id, Ptr>, thread: Thread) {
    && ChainUpToLast(next, thread.held)
    && (thread.pc != Idle ==> thread.held != [] && thread.pc.first == thread.held[0] && thread.pc.last in thread.held)
    && (thread.pc.Walk? ==> Next(next, Last(thread.held)) == Null)
    && (thread.pc != Idle && !thread.pc.Walk? ==> thread.pc.last == Last(thread.held))
    && (thread.pc.Exchange? ==> Next(next, thread.pc.last) != ClosedMarker)
  }

  function Last(s: seq<Id>): Id
    requires s != []
  {
    s[|s| - 1]
  }

  ghost predicate ChainUpToLast(next: map<Id, Ptr>, chain: seq<Id>) {
    forall k :: 0 <= k < |chain| - 1 ==> Next(next, chain[k]) == Node(chain[k + 1])
  }

  // ----- links -----

  lemma {:induction false} LinkedIsUnaffected(next: map<Id, Ptr>, p: Ptr, list: seq<Id>, next': map<Id, Ptr>)
    requires Linked(next, p, list) && forall n :: n in list ==> Next(next', n) == Next(next, n)
    ensures Linked(next', p, list)
    decreases list
  {
    if list != [] {
      LinkedIsUnaffected(next, Next(next, list[0]), list[1..], next');
    }
  }

  /** The chain of a successful exchange goes in front of what the stack holds now, whatever happened
      to the observed top between the load and the exchange. */
  lemma {:induction false} Prepend(next: map<Id, Ptr>, chain: seq<Id>, top: Ptr, list: seq<Id>)
    requires chain != [] && ChainUpToLast(next, chain)
    requires Next(next, Last(chain)) == top && Linked(next, top, list)
    ensures Linked(next, Node(chain[0]), chain + list)
    decreases chain
  {
    assert (chain + list)[1..] == chain[1..] + list;
    if |chain| > 1 {
      assert Next(next, chain[0]) == Node(chain[1]);
      forall k | 0 <= k < |chain| - 2
        ensures Next(next, chain[1..][k]) == Node(chain[1..][k + 1])
      {
        assert chain[1..][k] == chain[k + 1];
      }
      Prepend(next, chain[1..], top, list);
    } else {
      assert chain[1..] + list == list;
    }
  }

  lemma {:induction false} LinkedChain(next: map<Id, Ptr>, p: Ptr, list: seq<Id>)
    requires Linked(next, p, list)
    ensures ChainUpToLast(next, list)
    ensures list != [] ==> Next(next, Last(list)) == Null
    decreases list
  {
    if list != [] {
      LinkedChain(next, Next(next, list[0]), list[1..]);
      forall k | 0 <= k < |list| - 1
        ensures Next(next, list[k]) == Node(list[k + 1])
      {
        if k > 0 {
          assert list[1..][k - 1] == list[k];
        }
      }
      if |list| > 1 {
        assert Last(list) == Last(list[1..]);
      }
    }
  }

  // ----- nodes changing hands -----

  lemma Update(s: State, s': State, i: nat, thread: Thread)
    requires i < |s.threads| && s'.threads == s.threads[i := thread]
    requires forall n ::
               multiset(s'.list)[n] + multiset(thread.held)[n] == multiset(s.list)[n] + multiset(s.threads[i].held)[n]
    ensures SameNodes(s, s')
  {
    forall n
      ensures Copies(s', n) == Copies(s, n)
    {
      Sums.Update(s.threads, HeldBy(n), i, thread);
    }
  }

  /** A node that thread `i` holds is not on the stack and held by no other thread. */
  lemma HeldByNobodyElse(s: State, i: nat, n: Id)
    requires Inv(s) && i < |s.threads| && n in s.threads[i].held
    ensures n !in s.list
    ensures forall j :: 0 <= j < |s.threads| && j != i ==> n !in s.threads[j].held
  {
    var others := s.threads[i := Thread([], Idle)];
    Sums.Update(s.threads, HeldBy(n), i, Thread([], Idle));
    assert multiset(s.threads[i].held)[n] > 0;
    assert Copies(s, n) <= 1;
    assert multiset(s.list)[n] == 0;
    forall j | 0 <= j < |s.threads| && j != i
      ensures n !in s.threads[j].held
    {
      Sums.Update(others, HeldBy(n), j, others[j]);
      assert multiset(s.threads[j].held)[n] == 0;
    }
  }

  /** No chain holds a node twice. */
  lemma HeldDistinct(s: State, i: nat, k: nat, l: nat)
    requires Inv(s) && i < |s.threads| && k < l < |s.threads[i].held|
    ensures s.threads[i].held[k] != s.threads[i].held[l]
  {
    var held := s.threads[i].held;
    Sums.Update(s.threads, HeldBy(held[l]), i, s.threads[i]);
    assert Copies(s, held[l]) <= 1;
    TwiceCounts(held, k, l);
  }

  lemma TwiceCounts(held: seq<Id>, k: nat, l: nat)
    requires k < l < |held|
    ensures multiset(held)[held[l]] >= if held[k] == held[l] then 2 else 1
  {
    var before, behind := held[..l], held[l..];
    assert held == before + behind && held[k] == before[k] && behind[0] == held[l];
    assert multiset(held) == multiset(before) + multiset(behind);
    assert multiset(behind)[held[l]] >= 1;
    assert held[k] in multiset(before);
  }

  // ----- steps -----

  /** Every step keeps the invariant: what the pointers lead through is the abstract list, to which a
      successful exchange conses and which popping empties. No node is lost or doubled. */
  lemma StepKeepsInv(s: State, move: Move)
    requires Inv(s) && Allowed(s, move)
    ensures Inv(Step(s, move)) && SameNodes(s, Step(s, move))
  {
    var i := move.i;
    var held := s.threads[i].held;
    match move
    case Push(_) => GotoKeepsInv(s, i, Load(false, held[0], held[0]));
    case TryPush(_) => GotoKeepsInv(s, i, Load(true, held[0], held[0]));
    case PushStack(_) =>
      LinkedChain(s.next, Node(held[0]), held);
      GotoKeepsInv(s, i, Walk(held[0], held[0]));
    case Continue(_, spurious) => AdvanceKeepsInv(s, i, spurious);
    case TryPopAll(_) => PopKeepsInv(s, i, Null);
    case Close(_) => PopKeepsInv(s, i, ClosedMarker);
    case Split(_) => SplitKeepsInv(s, i);
  }

  lemma GotoKeepsInv(s: State, i: nat, pc: Pc)
    requires Inv(s) && i < |s.threads| && ThreadInv(s.next, s.threads[i].(pc := pc))
    ensures Inv(Goto(s, i, pc)) && SameNodes(s, Goto(s, i, pc))
  {
    Update(s, Goto(s, i, pc), i, s.threads[i].(pc := pc));
  }

  lemma PopKeepsInv(s: State, i: nat, top: Ptr)
    requires Inv(s) && i < |s.threads| && s.threads[i].held == [] && !top.Node?
    ensures Inv(Pop(s, i, top)) && SameNodes(s, Pop(s, i, top))
  {
    Update(s, Pop(s, i, top), i, Thread(s.list, Idle));
    if s.top != ClosedMarker {
      LinkedChain(s.next, s.top, s.list);
    }
    assert ThreadInv(s.next, Thread(s.list, Idle));
  }

  lemma SplitNodes(s: State, i: nat, one: Thread, more: Thread)
    requires i < |s.threads| && s.threads[i].held == one.held + more.held
    ensures SameNodes(s, s.(threads := s.threads[i := more] + [one]))
  {
    var rest := s.threads[i := more];
    assert (rest + [one])[..|rest|] == rest;
    forall n
      ensures Held(rest + [one], n) == Held(s.threads, n)
    {
      Sums.Update(s.threads, HeldBy(n), i, more);
      assert multiset(s.threads[i].held)[n] == multiset(one.held)[n] + multiset(more.held)[n];
    }
  }

  lemma SplitKeepsInv(s: State, i: nat)
    requires Inv(s) && Allowed(s, Split(i))
    ensures Inv(Step(s, Split(i))) && SameNodes(s, Step(s, Split(i)))
  {
    var held := s.threads[i].held;
    var one, more := Thread([held[0]], Idle), Thread(held[1..], Idle);
    SplitNodes(s, i, one, more);
    assert ThreadInv(s.next, s.threads[i]);
    forall k | 0 <= k < |held| - 2
      ensures Next(s.next, held[1..][k]) == Node(held[1..][k + 1])
    {
      assert held[1..][k] == held[k + 1] && held[1..][k + 1] == held[k + 2];
    }
    assert ThreadInv(s.next, one) && ThreadInv(s.next, more);
  }

  lemma AdvanceKeepsInv(s: State, i: nat, spurious: bool)
    requires Inv(s) && Allowed(s, Continue(i, spurious))
    ensures Inv(Step(s, Continue(i, spurious))) && SameNodes(s, Step(s, Continue(i, spurious)))
  {
    var thread := s.threads[i];
    assert ThreadInv(s.next, thread);
    match thread.pc
    case Walk(first, last) =>
      WalkKeepsInv(s, i, first, last);
    case Load(checked, first, last) =>
      ObserveKeepsInv(s, i, checked, first, last);
    case Check(first, last) =>
      GotoKeepsInv(s, i, if Next(s.next, last) == ClosedMarker then Idle else Exchange(true, first, last));
    case Exchange(checked, first, last) =>
      if s.top == Next(s.next, last) && !spurious {
        ConsKeepsInv(s, i);
      } else {
        ObserveKeepsInv(s, i, checked, first, last);
      }
  }

  /** The walk of push_stack ends at the last node of the chain. */
  lemma WalkKeepsInv(s: State, i: nat, first: Id, last: Id)
    requires Inv(s) && i < |s.threads| && s.threads[i].pc == Walk(first, last)
    ensures Inv(Advance(s, i, s.threads[i].pc, false)) && SameNodes(s, Advance(s, i, s.threads[i].pc, false))
  {
    var held := s.threads[i].held;
    assert ThreadInv(s.next, s.threads[i]);
    var k :| 0 <= k < |held| && held[k] == last;
    if k < |held| - 1 {
      assert Next(s.next, last) == Node(held[k + 1]);
      GotoKeepsInv(s, i, Walk(first, held[k + 1]));
    } else {
      GotoKeepsInv(s, i, Load(false, first, last));
    }
  }

  /** A push takes effect on whatever the stack holds at the exchange, even if the observed top was
      popped and pushed again since it was loaded. */
  lemma ConsKeepsInv(s: State, i: nat)
    requires Inv(s) && i < |s.threads| && s.threads[i].pc.Exchange?
    requires s.top == Next(s.next, s.threads[i].pc.last)
    ensures Inv(Cons(s, i, s.threads[i].pc.first)) && SameNodes(s, Cons(s, i, s.threads[i].pc.first))
  {
    var held := s.threads[i].held;
    assert ThreadInv(s.next, s.threads[i]);
    Prepend(s.next, held, s.top, s.list);
    Update(s, Cons(s, i, held[0]), i, Thread([], Idle));
    assert ThreadInv(s.next, Thread([], Idle));
  }

  /** Writing the top into the last node of a held chain disturbs nobody else. */
  lemma ObserveKeepsInv(s: State, i: nat, checked: bool, first: Id, last: Id)
    requires Inv(s) && i < |s.threads| && s.threads[i].held != []
    requires first == s.threads[i].held[0] && last == Last(s.threads[i].held)
    requires !checked ==> s.top != ClosedMarker
    ensures Inv(Observe(s, i, checked, first, last)) && SameNodes(s, Observe(s, i, checked, first, last))
  {
    var held := s.threads[i].held;
    var next := s.next[last := s.top];
    var s' := Observe(s, i, checked, first, last);
    HeldByNobodyElse(s, i, last);
    Update(s, s', i, s'.threads[i]);
    if s.top != ClosedMarker {
      LinkedIsUnaffected(s.next, s.top, s.list, next);
    }
    assert ThreadInv(s.next, s.threads[i]);
    forall k | 0 <= k < |held| - 1
      ensures Next(next, held[k]) == Node(held[k + 1])
    {
      HeldDistinct(s, i, k, |held| - 1);
    }
    assert ThreadInv(next, s'.threads[i]);
    forall j | 0 <= j < |s.threads| && j != i
      ensures ThreadInv(next, s.threads[j])
    {
      OthersUnaffected(s.next, s.threads[j], last, s.top);
    }
  }

  lemma OthersUnaffected(next: map<Id, Ptr>, thread: Thread, n: Id, p: Ptr)
    requires ThreadInv(next, thread) && n !in thread.held
    ensures ThreadInv(next[n := p], thread)
  {
    assert forall k :: 0 <= k < |thread.held| ==> thread.held[k] != n;
  }

  /** A step writes the `next` field of no node but the mover's own, and no thread's state but its own; only
      try_pop_all opens a closed stack again. */
  lemma StepTouchesOwn(s: State, move: Move)
    requires Inv(s) && Allowed(s, move) && !move.Split?
    ensures var s' := Step(s, move);
            && |s'.threads| == |s.threads|
            && (forall j :: 0 <= j < |s.threads| && j != move.i ==> s'.threads[j] == s.threads[j])
            && (forall n :: n !in s.threads[move.i].held ==> Next(s'.next, n) == Next(s.next, n))
            && (s.top == ClosedMarker && !move.TryPopAll? ==> s'.top == ClosedMarker)
            && (s.top != ClosedMarker && !move.Close? ==> s'.top != ClosedMarker)
  {
    var thread := s.threads[move.i];
    assert ThreadInv(s.next, thread);
    if move.Continue? && (thread.pc.Load? || thread.pc.Exchange?) {
      assert thread.pc.last in thread.held;
    }
  }

  /** A popped chain is what push_stack asks for. */
  lemma PoppedChainIsAStack(s: State, i: nat)
    requires Inv(s) && Allowed(s, TryPopAll(i)) && s.list != []
    ensures Allowed(Step(s, TryPopAll(i)), PushStack(i))
    ensures Step(s, TryPopAll(i)).threads[i].held == s.list && s.top == Node(s.list[0])
  {
  }

  // ----- runs -----

  ghost predicate Run(states: seq<State>, moves: seq<Move>) {
    && |states| == |moves| + 1
    && Initial(states[0])
    && (forall k :: 0 <= k < |moves| ==> Allowed(states[k], moves[k]) && states[k + 1] == Step(states[k], moves[k]))
  }

  /** A stack that starts empty or closed, with any nodes in the hands of the threads. */
  ghost predicate Initial(s: State) {
    && !s.top.Node? && s.list == []
    && (forall n :: Held(s.threads, n) <= 1)
    && (forall i :: 0 <= i < |s.threads| ==> s.threads[i].pc == Idle && |s.threads[i].held| <= 1)
  }

  /** Over all runs each node is always in exactly one place, and the pointers are the abstract list. */
  lemma {:induction false} RunKeepsInv(states: seq<State>, moves: seq<Move>, k: nat)
    requires Run(states, moves) && k < |states|
    ensures Inv(states[k]) && SameNodes(states[0], states[k])
  {
    if k == 0 {
      forall i | 0 <= i < |states[0].threads|
        ensures ThreadInv(states[0].next, states[0].threads[i])
      {
      }
    } else {
      RunKeepsInv(states, moves, k - 1);
      StepKeepsInv(states[k - 1], moves[k - 1]);
    }
  }

  /** How often a step pushes and pops node `n`. */
  ghost function Pushes(s: State, move: Move, n: Id): nat
    requires Allowed(s, move)
  {
    if move.Continue? && Step(s, move).list != s.list then multiset(s.threads[move.i].held)[n] else 0
  }

  ghost function Pops(s: State, move: Move, n: Id): nat
    requires Allowed(s, move)
  {
    if move.TryPopAll? || move.Close? then multiset(Step(s, move).threads[move.i].held)[n] else 0
  }

  lemma StepBalance(s: State, move: Move, n: Id)
    requires Inv(s) && Allowed(s, move)
    ensures multiset(s.list)[n] + Pushes(s, move, n) == multiset(Step(s, move).list)[n] + Pops(s, move, n)
  {
    if move.Continue? {
      assert multiset(s.threads[move.i].held + s.list)[n] == multiset(s.threads[move.i].held)[n] + multiset(s.list)[n];
    }
  }

  /** How often `n` was pushed and popped in the first `k` moves of a run. */
  ghost function Pushed(states: seq<State>, moves: seq<Move>, k: nat, n: Id): nat
    requires Run(states, moves) && k < |states|
  {
    if k == 0 then 0 else Pushed(states, moves, k - 1, n) + Pushes(states[k - 1], moves[k - 1], n)
  }

  ghost function Popped(states: seq<State>, moves: seq<Move>, k: nat, n: Id): nat
    requires Run(states, moves) && k < |states|
  {
    if k == 0 then 0 else Popped(states, moves, k - 1, n) + Pops(states[k - 1], moves[k - 1], n)
  }

  /** Each successful push of a node is answered by exactly one pop, but for the last one of a node that
      is still on the stack. */
  lemma {:induction false} EachPushIsPoppedOnce(states: seq<State>, moves: seq<Move>, k: nat, n: Id)
    requires Run(states, moves) && k < |states|
    ensures Pushed(states, moves, k, n) == Popped(states, moves, k, n) + multiset(states[k].list)[n]
    ensures multiset(states[k].list)[n] <= 1
  {
    RunKeepsInv(states, moves, k);
    assert Copies(states[k], n) <= 1;
    if k > 0 {
      EachPushIsPoppedOnce(states, moves, k - 1, n);
      RunKeepsInv(states, moves, k - 1);
      StepBalance(states[k - 1], moves[k - 1], n);
    }
  }

  /** A stack that somebody has closed, or that began closed, stays closed and empty. */
  lemma {:induction false} ClosedForever(states: seq<State>, moves: seq<Move>, k: nat, l: nat)
    requires Run(states, moves) && k <= l < |states|
    requires states[k].top == ClosedMarker || (k > 0 && moves[k - 1].Close?)
    ensures states[l].top == ClosedMarker && states[l].list == []
    decreases l
  {
    RunKeepsInv(states, moves, l);
    if k < l {
      ClosedForever(states, moves, k, l - 1);
      ClosedNext(states, moves, l - 1);
    } else if k > 0 && moves[k - 1].Close? {
      ClosedNext(states, moves, k - 1);
    }
  }

  lemma ClosedNext(states: seq<State>, moves: seq<Move>, k: nat)
    requires Run(states, moves) && k < |moves| && (states[k].top == ClosedMarker || moves[k].Close?)
    ensures states[k + 1].top == ClosedMarker
  {
    RunKeepsInv(states, moves, k);
    if !moves[k].Split? {
      StepTouchesOwn(states[k], moves[k]);
    }
  }

  // ----- what becomes of a push -----

  /** Thread `i` is in the operation that `begin` began, with the chain it had then; a refusal to come is due
      to a stack that was closed since. */
  ghost predicate Pushing(begin: Move, held: seq<Id>, closed: bool, s: State, i: nat) {
    && i < |s.threads|
    && var pc := s.threads[i].pc;
       && s.threads[i].held == held && pc != Idle
       && (pc.Walk? ==> begin.PushStack?)
       && (pc.Load? || pc.Exchange? ==> pc.checked == begin.TryPush?)
       && (pc.Check? ==> begin.TryPush?)
       && (pc.Check? && Next(s.next, pc.last) == ClosedMarker ==> closed)
  }

  /** Thread `i` is busy; if nobody has closed the stack meanwhile, it is not closed here either. */
  ghost predicate Meanwhile(s: State, i: nat, closed: bool) {
    (i < |s.threads| ==> s.threads[i].pc != Idle) && (s.top == ClosedMarker ==> closed)
  }

  /** A thread in an operation stays in it with its chain, or has its whole chain on top of the list, or was
      refused by what try_push read. */
  lemma OwnStep(s: State, i: nat, spurious: bool)
    requires Inv(s) && Allowed(s, Continue(i, spurious))
    ensures var thread, s' := s.threads[i], Step(s, Continue(i, spurious));
            && |s'.threads| == |s.threads|
            && var thread' := s'.threads[i];
               if thread'.pc != Idle then
                 && s'.list == s.list && thread'.held == thread.held
                 && (thread'.pc.Walk? ==> thread.pc.Walk?)
                 && (thread'.pc.Load? ==> thread.pc.Walk? && !thread'.pc.checked)
                 && (thread'.pc.Exchange? && !thread'.pc.checked ==> (thread.pc.Load? || thread.pc.Exchange?) && !thread.pc.checked)
                 && (thread'.pc.Exchange? && thread'.pc.checked ==> thread.pc.Check?)
                 && (thread'.pc.Check? ==> (thread.pc.Load? || thread.pc.Exchange?) && thread.pc.checked)
                 && (thread'.pc.Check? ==> Next(s'.next, thread'.pc.last) == s.top)
               else if thread'.held == [] then
                 s'.list == thread.held + s.list && s'.top == Node(thread.held[0])
               else
                 && s'.list == s.list && s'.top == s.top && thread'.held == thread.held && thread.pc.Check?
                 && Next(s.next, thread.pc.last) == ClosedMarker
  {
    assert ThreadInv(s.next, s.threads[i]);
  }

  /** Nobody else ends the operation, or writes what it has read. */
  lemma OtherStep(s: State, move: Move, i: nat)
    requires Inv(s) && Allowed(s, move) && i < |s.threads| && s.threads[i].pc != Idle
    requires move.Continue? ==> move.i != i
    ensures var s' := Step(s, move);
            && |s.threads| <= |s'.threads| && s'.threads[i] == s.threads[i]
            && Next(s'.next, s.threads[i].pc.last) == Next(s.next, s.threads[i].pc.last)
  {
    assert move.i != i;
    assert ThreadInv(s.next, s.threads[i]);
    if !move.Split? {
      StepTouchesOwn(s, move);
      HeldByNobodyElse(s, i, s.threads[i].pc.last);
    }
  }

  lemma PushingStep(begin: Move, held: seq<Id>, closed: bool, s: State, move: Move, i: nat)
    requires Inv(s) && Allowed(s, move) && Pushing(begin, held, closed, s, i)
    requires Meanwhile(s, i, closed) && Meanwhile(Step(s, move), i, closed)
    ensures Pushing(begin, held, closed, Step(s, move), i)
  {
    if move.Continue? && move.i == i {
      OwnStep(s, i, move.spurious);
    } else {
      OtherStep(s, move, i);
    }
  }

  lemma BeginStep(s: State, move: Move)
    requires Allowed(s, move) && (move.Push? || move.TryPush? || move.PushStack?)
    ensures forall closed :: Pushing(move, s.threads[move.i].held, closed, Step(s, move), move.i)
  {
  }

  lemma PushingGoesOn(states: seq<State>, moves: seq<Move>, k: nat, begin: Move, held: seq<Id>, closed: bool, i: nat)
    requires Run(states, moves) && k < |moves| && Pushing(begin, held, closed, states[k], i)
    requires Meanwhile(states[k], i, closed) && Meanwhile(states[k + 1], i, closed)
    ensures Pushing(begin, held, closed, states[k + 1], i)
  {
    RunKeepsInv(states, moves, k);
    PushingStep(begin, held, closed, states[k], moves[k], i);
  }

  lemma {:induction false} StaysPushing(states: seq<State>, moves: seq<Move>, a: nat, k: nat,
                                        begin: Move, held: seq<Id>, closed: bool, i: nat)
    requires Run(states, moves) && a <= k < |states| && Pushing(begin, held, closed, states[a], i)
    requires forall l :: a <= l <= k ==> Meanwhile(states[l], i, closed)
    ensures Pushing(begin, held, closed, states[k], i)
    decreases k
  {
    if a < k {
      StaysPushing(states, moves, a, k - 1, begin, held, closed, i);
      PushingGoesOn(states, moves, k - 1, begin, held, closed, i);
    }
  }

  /** However long a push takes and whatever the others do meanwhile: when its thread is idle again, its whole
      chain is in front of what the stack held then; or it was a try_push, the stack was closed meanwhile, and
      the thread still has its node. */
  lemma PushEndsOnStack(states: seq<State>, moves: seq<Move>, a: nat, b: nat, i: nat, closed: bool)
    requires Run(states, moves) && a < b < |moves| && (moves[a].Push? || moves[a].TryPush? || moves[a].PushStack?)
    requires moves[a].i == i && forall l :: a < l <= b ==> Meanwhile(states[l], i, closed)
    requires i < |states[b + 1].threads| && states[b + 1].threads[i].pc == Idle
    ensures i < |states[a].threads|
    ensures var held, thread := states[a].threads[i].held, states[b + 1].threads[i];
            || (thread.held == [] && states[b + 1].list == held + states[b].list)
            || (moves[a].TryPush? && closed && thread.held == held && states[b + 1].list == states[b].list)
  {
    var held := states[a].threads[i].held;
    BeginStep(states[a], moves[a]);
    StaysPushing(states, moves, a + 1, b, moves[a], held, closed, i);
    RunKeepsInv(states, moves, b);
    PushingEnds(moves[a], held, closed, states[b], moves[b], i);
  }

  lemma PushingEnds(begin: Move, held: seq<Id>, closed: bool, s: State, move: Move, i: nat)
    requires Inv(s) && Allowed(s, move) && Pushing(begin, held, closed, s, i)
    requires i < |Step(s, move).threads| ==> Step(s, move).threads[i].pc == Idle
    ensures var s' := Step(s, move);
            && i < |s'.threads|
            && ((s'.threads[i].held == [] && s'.list == held + s.list)
                || (begin.TryPush? && closed && s'.threads[i].held == held && s'.list == s.list))
  {
    if move.Continue? && move.i == i {
      OwnStep(s, i, move.spurious);
    } else {
      OtherStep(s, move, i);
    }
  }

  /** A push begins by making its thread busy, with the nodes it was called with. */
  lemma PushBegins(states: seq<State>, moves: seq<Move>, a: nat)
    requires Run(states, moves) && a < |moves| && (moves[a].Push? || moves[a].TryPush? || moves[a].PushStack?)
    ensures var i := moves[a].i;
            && i < |states[a].threads| == |states[a + 1].threads| && states[a + 1].list == states[a].list
            && states[a + 1].threads[i].pc != Idle && states[a + 1].threads[i].held == states[a].threads[i].held != []
  {
    BeginStep(states[a], moves[a]);
  }

  // ----- an operation that runs alone -----

  function Behind(chain: seq<Id>, n: Id): nat {
    if chain == [] then 0 else if chain[0] == n then |chain| - 1 else Behind(chain[1..], n)
  }

  lemma {:induction false} BehindAt(chain: seq<Id>, k: nat)
    requires k < |chain| && forall i, j :: 0 <= i < j < |chain| ==> chain[i] != chain[j]
    ensures Behind(chain, chain[k]) == |chain| - 1 - k
    decreases chain
  {
    if k > 0 {
      BehindAt(chain[1..], k - 1);
      assert chain[1..][k - 1] == chain[k];
    }
  }

  /** How many steps thread `i` is from the end of its operation if nobody else moves and no exchange fails for
      no reason. */
  ghost function Effort(s: State, i: nat): nat
    requires i < |s.threads|
  {
    match s.threads[i].pc
    case Idle => 0
    case Walk(_, last) => 4 + Behind(s.threads[i].held, last)
    case Load(_, _, _) => 3
    case Check(_, last) => if Next(s.next, last) == ClosedMarker then 1 else if Next(s.next, last) == s.top then 2 else 4
    case Exchange(_, _, last) => if Next(s.next, last) == s.top then 1 else 3
  }

  lemma WalkDecreases(s: State, i: nat)
    requires Inv(s) && i < |s.threads| && s.threads[i].pc.Walk?
    ensures Effort(Advance(s, i, s.threads[i].pc, false), i) < Effort(s, i)
  {
    var held, last := s.threads[i].held, s.threads[i].pc.last;
    assert ThreadInv(s.next, s.threads[i]);
    var k :| 0 <= k < |held| && held[k] == last;
    if k < |held| - 1 {
      forall j, l | 0 <= j < l < |held|
        ensures held[j] != held[l]
      {
        HeldDistinct(s, i, j, l);
      }
      BehindAt(held, k);
      BehindAt(held, k + 1);
    }
  }

  lemma EffortDecreases(s: State, i: nat)
    requires Inv(s) && Allowed(s, Continue(i, false))
    ensures i < |Step(s, Continue(i, false)).threads| && Effort(Step(s, Continue(i, false)), i) < Effort(s, i)
  {
    if s.threads[i].pc.Walk? {
      WalkDecreases(s, i);
    }
  }

  /** No operation goes on for ever when it runs alone and no exchange fails for no reason: the walk takes a step
      for each node, and the rest at most four. */
  lemma AloneItFinishes(states: seq<State>, moves: seq<Move>, a: nat, k: nat, i: nat)
    requires Run(states, moves) && a <= k <= |moves| && i < |states[a].threads|
    requires forall l :: a <= l < k ==> moves[l] == Continue(i, false)
    ensures k - a <= |states[a].threads[i].held| + 4
  {
    forall l | a <= l < k
      ensures Nearer(states[l], states[l + 1], i)
    {
      EffortNext(states, moves, l, i);
    }
    EffortIsLeft(states, a, k, i);
    EffortBound(states[a], i);
  }

  lemma EffortBound(s: State, i: nat)
    requires i < |s.threads|
    ensures Effort(s, i) <= |s.threads[i].held| + 4
  {
    if s.threads[i].pc.Walk? {
      BehindBound(s.threads[i].held, s.threads[i].pc.last);
    }
  }

  lemma {:induction false} BehindBound(chain: seq<Id>, n: Id)
    ensures Behind(chain, n) <= |chain|
  {
    if chain != [] {
      BehindBound(chain[1..], n);
    }
  }

  ghost predicate Nearer(s: State, s': State, i: nat) {
    i < |s.threads| && i < |s'.threads| && Effort(s', i) < Effort(s, i)
  }

  lemma {:induction false} EffortIsLeft(states: seq<State>, a: nat, k: nat, i: nat)
    requires a <= k < |states| && i < |states[a].threads|
    requires forall l :: a <= l < k ==> Nearer(states[l], states[l + 1], i)
    ensures i < |states[k].threads| && Effort(states[k], i) + k - a <= Effort(states[a], i)
    decreases k
  {
    if a < k {
      EffortIsLeft(states, a, k - 1, i);
      assert Nearer(states[k - 1], states[k - 1 + 1], i);
    }
  }

  lemma EffortNext(states: seq<State>, moves: seq<Move>, k: nat, i: nat)
    requires Run(states, moves) && k < |moves| && moves[k] == Continue(i, false)
    ensures Nearer(states[k], states[k + 1], i)
  {
    RunKeepsInv(states, moves, k);
    EffortDecreases(states[k], i);
  }
}
