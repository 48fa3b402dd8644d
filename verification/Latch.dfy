/** The coroutine latch over the closable lock-free stack, as interleaved atomic steps of its operations.

Operation `i` is thread `i` of the stack; a waiting operation owns node `i`. The documented precondition
"n <= internal counter" of arrivals is read as reserved tokens: the arrivals of all operations together do
not exceed the initial count. */
module Latch {

  import Sums
  import opened Wrappers
  import Stack = LockfreeStack

  type Id = Stack.Id

  datatype Kind = CountDown(n: nat) | Wait | ArriveAndWait(n: nat)

  datatype Pc =
    | Start
    | Pushing                    // in push or try_push
    | Arriving                   // about to subtract from the counter
    | Closing                    // about to close the stack and pop the waiters
    | Attaching(top: Stack.Ptr)  // the popped waiters that still have to go to the executor
    | Done

  /** `attached` are the nodes that the operation handed to the executor. */
  datatype Op = Op(kind: Kind, pc: Pc, attached: seq<Id>)

  /** `freed` are the awaiters, and so the nodes, that are gone because their coroutine goes on. */
  datatype State = State(stack: Stack.State, counter: int, ops: seq<Op>, freed: set<Id>)

  function Amount(kind: Kind): nat {
    if kind.Wait? then 0 else kind.n
  }

  /** The operation uses try_push: it is `wait`, or `arrive_and_wait(0)`. */
  predicate Checked(kind: Kind) {
    !kind.CountDown? && Amount(kind) == 0
  }

  // ----- steps -----

  /** The next atomic step of operation `i`; `None` if it would break a precondition of the stack, or use an
      awaiter that is gone: pushing writes its node, `arrive_and_wait` then reads `l` and `n` in it, and
      attaching reads the next node. A coroutine may go on, and free its awaiter, as soon as it is attached. */
  ghost function Step(s: State, i: nat, spurious: bool): Option<State>
    requires i < |s.ops| && s.ops[i].pc != Done
  {
    var op := s.ops[i];
    match op.pc
    case Start =>
      if op.kind.CountDown? then Some(Goto(s, i, Arriving))
      else if !Checked(op.kind) then StackMove(s, i, Stack.Push(i))
      else if s.stack.top == Stack.ClosedMarker then Some(Goto(s, i, Done))
      else StackMove(s, i, Stack.TryPush(i))
    case Pushing => if i in s.freed then None else StackMove(s, i, Stack.Continue(i, spurious))
    case Arriving =>
      if !op.kind.CountDown? && i in s.freed then None
      else
        var n := Amount(op.kind);
        Some(Goto(s.(counter := s.counter - n), i, if s.counter == n then Closing else Done))
    case Closing => StackMove(s, i, Stack.Close(i))
    case Attaching(top) =>
      if !top.Node? then Some(Goto(s, i, Done))
      else if top.id in s.freed then None
      else Some(Attach(s, i, top.id, Stack.Next(s.stack.next, top.id)))
  }

  ghost function Attach(s: State, i: nat, n: Id, next: Stack.Ptr): State
    requires i < |s.ops|
  {
    var op := s.ops[i];
    s.(ops := s.ops[i := Op(op.kind, Attaching(next), op.attached + [n])], freed := s.freed + {n})
  }

  ghost function Goto(s: State, i: nat, pc: Pc): State
    requires i < |s.ops|
  {
    s.(ops := s.ops[i := s.ops[i].(pc := pc)])
  }

  ghost function StackMove(s: State, i: nat, move: Stack.Move): Option<State>
    requires i < |s.ops|
  {
    if !Stack.Allowed(s.stack, move) then None
    else
      var stack := Stack.Step(s.stack, move);
      Some(Goto(s.(stack := stack), i, After(s.stack, stack, i, s.ops[i].kind, move)))
  }

  /** Where an operation is after a step of its stack operation. */
  ghost function After(before: Stack.State, stack: Stack.State, i: nat, kind: Kind, move: Stack.Move): Pc {
    if move.Close? then Attaching(if before.top == Stack.ClosedMarker then Stack.Null else before.top)
    else if i < |stack.threads| && stack.threads[i].pc != Stack.Idle then Pushing
    else if Checked(kind) then Done
    else Arriving
  }

  // ----- the invariant -----

  ghost predicate Inv(s: State) {
    && Stack.Inv(s.stack)
    && |s.stack.threads| == |s.ops|
    && Reserved(s.ops) <= s.counter
    && (s.stack.top == Stack.ClosedMarker ==> s.counter == 0)
    && (s.counter == 0 ==> s.stack.top == Stack.ClosedMarker || exists i :: 0 <= i < |s.ops| && s.ops[i].pc == Closing)
    && (forall i :: 0 <= i < |s.ops| ==> OpInv(s, i, s.ops[i]))
    && (forall i, j :: 0 <= i < |s.ops| && 0 <= j < |s.ops| && i != j && Closer(s.ops[i]) && Closer(s.ops[j]) ==>
      Amount(s.ops[i].kind) == 0 || Amount(s.ops[j].kind) == 0)
    && (forall n :: n in s.freed ==> WasAttached(s.ops, n))
  }

  ghost predicate WasAttached(ops: seq<Op>, n: Id) {
    exists j :: 0 <= j < |ops| && n in ops[j].attached
  }

  /** The arrivals that are still to be subtracted. */
  ghost function Reserved(ops: seq<Op>): nat {
    Sums.Sum(ops, Owes)
  }

  function Owes(op: Op): nat {
    if op.pc == Start || op.pc == Pushing || op.pc == Arriving then Amount(op.kind) else 0
  }

  /** The operation brought the counter to zero, or found it there. */
  predicate Closer(op: Op) {
    op.pc == Closing || op.pc.Attaching? || op.attached != []
  }

  ghost predicate OpInv(s: State, i: nat, op: Op)
    requires i < |s.stack.threads|
  {
    var thread := s.stack.threads[i];
    && (op.attached != [] ==> op.pc.Attaching? || op.pc == Done)
    && match op.pc
       case Start => thread == Stack.Thread(if op.kind.CountDown? then [] else [i], Stack.Idle)
       case Pushing =>
         && !op.kind.CountDown?
         && thread.held == [i] && thread.pc != Stack.Idle && !thread.pc.Walk?
         && (if thread.pc.Check? then Checked(op.kind) else thread.pc.checked == Checked(op.kind))
         && (thread.pc.Check? && Stack.Next(s.stack.next, i) == Stack.ClosedMarker ==> Closed(s))
       case Arriving => thread == Stack.Thread([], Stack.Idle) && !Checked(op.kind)
       case Closing => thread == Stack.Thread([], Stack.Idle) && !Checked(op.kind) && s.counter == 0
       case Attaching(top) =>
         && thread.pc == Stack.Idle && Closed(s) && !Checked(op.kind)
         && |op.attached| <= |thread.held| && op.attached == thread.held[..|op.attached|]
         && Stack.Linked(s.stack.next, top, thread.held[|op.attached|..])
       case Done =>
         && thread.pc == Stack.Idle
         && (thread.held == op.attached || Refused(s, i, op))
         && (op.attached != [] ==> Closed(s) && !Checked(op.kind))
  }

  predicate Closed(s: State) {
    s.stack.top == Stack.ClosedMarker
  }

  /** The waiter was not pushed, so it continues without suspending. */
  ghost predicate Refused(s: State, i: nat, op: Op)
    requires i < |s.stack.threads|
  {
    op.pc == Done && Checked(op.kind) && s.stack.threads[i].held == [i] && op.attached == [] && Closed(s)
  }

  // ----- every step keeps the invariant -----

  /** What was attached is among the nodes that its closer popped, and the latch is closed. */
  lemma AttachedIsHeld(s: State, j: nat, n: Id)
    requires Inv(s) && j < |s.ops| && n in s.ops[j].attached
    ensures n in s.stack.threads[j].held && Closed(s) && s.counter == 0 && !Checked(s.ops[j].kind)
    ensures s.ops[j].pc.Attaching? || s.ops[j].pc == Done
  {
    assert OpInv(s, j, s.ops[j]);
  }

  /** Nothing is attached while an arrival is still to be subtracted, so its awaiter is there. */
  lemma ArrivingAwaiterIsAlive(s: State, i: nat)
    requires Inv(s) && i < |s.ops| && Owes(s.ops[i]) > 0
    ensures s.freed == {}
  {
    Sums.Update(s.ops, Owes, i, s.ops[i]);
    assert s.counter > 0;
    forall j | 0 <= j < |s.ops|
      ensures s.ops[j].attached == []
    {
      assert OpInv(s, j, s.ops[j]);
    }
    assert forall n :: n in s.freed ==> !WasAttached(s.ops, n);
  }

  /** A node that one operation still pushes was attached by nobody. */
  lemma PushedAwaiterIsAlive(s: State, i: nat)
    requires Inv(s) && i < |s.ops| && s.ops[i].pc == Pushing
    ensures i !in s.freed
  {
    assert OpInv(s, i, s.ops[i]);
    Stack.HeldByNobodyElse(s.stack, i, i);
    forall j | 0 <= j < |s.ops|
      ensures i !in s.ops[j].attached
    {
      NotHeldNotAttached(s, j, i);
    }
    assert !WasAttached(s.ops, i);
  }

  lemma NotHeldNotAttached(s: State, j: nat, n: Id)
    requires Inv(s) && j < |s.ops| && (n !in s.stack.threads[j].held || s.ops[j].attached == [])
    ensures n !in s.ops[j].attached
  {
    assert OpInv(s, j, s.ops[j]);
  }

  /** So are the nodes that are not yet attached. */
  lemma NextToAttachIsAlive(s: State, i: nat)
    requires Inv(s) && i < |s.ops| && s.ops[i].pc.Attaching? && s.ops[i].pc.top.Node?
    ensures s.ops[i].pc.top.id !in s.freed
  {
    assert OpInv(s, i, s.ops[i]);
    var k, held, n := |s.ops[i].attached|, s.stack.threads[i].held, s.ops[i].pc.top.id;
    assert held[k..] != [] && held[k] == n;
    forall l | 0 <= l < k
      ensures held[l] != n
    {
      Stack.HeldDistinct(s.stack, i, l, k);
    }
    Stack.HeldByNobodyElse(s.stack, i, n);
    forall j | 0 <= j < |s.ops| && j != i
      ensures n !in s.ops[j].attached
    {
      NotHeldNotAttached(s, j, n);
    }
    assert !WasAttached(s.ops, n);
  }

  /** No operation ever breaks a precondition of the stack or uses an awaiter that is gone: in particular the
      unchecked push of `arrive_and_wait(n)` never meets the closed marker. */
  lemma StepIsSafe(s: State, i: nat, spurious: bool)
    requires Inv(s) && i < |s.ops| && s.ops[i].pc != Done
    ensures Step(s, i, spurious).Some?
  {
    assert OpInv(s, i, s.ops[i]);
    Sums.Update(s.ops, Owes, i, s.ops[i]);
    if s.ops[i].pc.Attaching? {
      if s.ops[i].pc.top.Node? {
        NextToAttachIsAlive(s, i);
      }
    } else if s.ops[i].pc == Pushing {
      PushedAwaiterIsAlive(s, i);
    } else if s.ops[i].pc == Arriving && Owes(s.ops[i]) > 0 {
      ArrivingAwaiterIsAlive(s, i);
    }
  }

  lemma StepKeepsInv(s: State, i: nat, spurious: bool, s': State)
    requires Inv(s) && i < |s.ops| && s.ops[i].pc != Done && Step(s, i, spurious) == Some(s')
    ensures Inv(s')
  {
    assert OpInv(s, i, s.ops[i]);
    match s.ops[i].pc
    case Start =>
      if s.ops[i].kind.CountDown? || (Checked(s.ops[i].kind) && Closed(s)) {
        LocalStep(s, i, s');
      } else {
        StackStep(s, i, if Checked(s.ops[i].kind) then Stack.TryPush(i) else Stack.Push(i), s');
      }
    case Pushing => StackStep(s, i, Stack.Continue(i, spurious), s');
    case Arriving => ArriveKeepsInv(s, i, s');
    case Closing => StackStep(s, i, Stack.Close(i), s');
    case Attaching(_) => AttachKeepsInv(s, i, s');
  }

  lemma StepKeepsNodes(s: State, i: nat, spurious: bool, s': State)
    requires Inv(s) && i < |s.ops| && s.ops[i].pc != Done && Step(s, i, spurious) == Some(s')
    ensures Stack.SameNodes(s.stack, s'.stack)
    ensures |s'.ops| == |s.ops| && forall j :: 0 <= j < |s.ops| ==> s'.ops[j].kind == s.ops[j].kind
  {
    match s.ops[i].pc
    case Start =>
      if !s.ops[i].kind.CountDown? && !(Checked(s.ops[i].kind) && Closed(s)) {
        Stack.StepKeepsInv(s.stack, if Checked(s.ops[i].kind) then Stack.TryPush(i) else Stack.Push(i));
      }
    case Pushing => Stack.StepKeepsInv(s.stack, Stack.Continue(i, spurious));
    case Closing => Stack.StepKeepsInv(s.stack, Stack.Close(i));
    case _ =>
  }

  /** A step that leaves the counter alone. */
  lemma SameCounter(s: State, i: nat, s': State)
    requires Inv(s) && i < |s.ops| == |s'.ops| && s'.ops == s.ops[i := s'.ops[i]] && s'.counter == s.counter
    requires s'.ops[i].kind == s.ops[i].kind && Owes(s'.ops[i]) <= Owes(s.ops[i]) && (Closer(s'.ops[i]) ==> Closer(s.ops[i]))
    requires Stack.Inv(s'.stack) && |s'.stack.threads| == |s.ops|
    requires forall j :: 0 <= j < |s'.ops| ==> OpInv(s', j, s'.ops[j])
    requires (Closed(s) || s.ops[i].pc == Closing ==> Closed(s')) && (Closed(s') ==> s.counter == 0)
    requires s.ops[i].attached <= s'.ops[i].attached
    requires forall n :: n in s'.freed ==> n in s.freed || n in s'.ops[i].attached
    ensures Inv(s')
  {
    Sums.Update(s.ops, Owes, i, s'.ops[i]);
    if s.counter == 0 && !Closed(s') {
      var k :| 0 <= k < |s.ops| && s.ops[k].pc == Closing;
      assert s'.ops[k].pc == Closing;
    }
    FreedWereAttached(s, i, s');
  }

  lemma FreedWereAttached(s: State, i: nat, s': State)
    requires Inv(s) && i < |s.ops| == |s'.ops| && s'.ops == s.ops[i := s'.ops[i]]
    requires s.ops[i].attached <= s'.ops[i].attached
    requires forall n :: n in s'.freed ==> n in s.freed || n in s'.ops[i].attached
    ensures forall n :: n in s'.freed ==> WasAttached(s'.ops, n)
  {
    forall n | n in s'.freed
      ensures WasAttached(s'.ops, n)
    {
      if n in s.freed {
        var j :| 0 <= j < |s.ops| && n in s.ops[j].attached;
        assert n in s'.ops[j].attached;
      } else {
        assert n in s'.ops[i].attached;
      }
    }
  }

  lemma AttachKeepsInv(s: State, i: nat, s': State)
    requires Inv(s) && i < |s.ops| && s.ops[i].pc.Attaching? && Step(s, i, false) == Some(s')
    ensures Inv(s')
  {
    assert OpInv(s, i, s.ops[i]);
    LocalStep(s, i, s');
  }

  /** A step that touches neither the stack nor the counter. */
  lemma LocalStep(s: State, i: nat, s': State)
    requires Inv(s) && i < |s.ops| == |s'.ops| && s' == s.(ops := s.ops[i := s'.ops[i]], freed := s'.freed)
    requires s.ops[i].attached <= s'.ops[i].attached
    requires forall n :: n in s'.freed ==> n in s.freed || n in s'.ops[i].attached
    requires s'.ops[i].kind == s.ops[i].kind && s.ops[i].pc != Closing
    requires Owes(s'.ops[i]) <= Owes(s.ops[i]) && OpInv(s', i, s'.ops[i]) && (Closer(s'.ops[i]) ==> Closer(s.ops[i]))
    ensures Inv(s')
  {
    forall j | 0 <= j < |s.ops|
      ensures OpInv(s', j, s'.ops[j])
    {
      assert OpInv(s, j, s.ops[j]);
    }
    SameCounter(s, i, s');
  }

  /** A step of one operation's stack operation disturbs no other operation. */
  lemma OthersUndisturbed(s: State, stack: Stack.State, i: nat, j: nat)
    requires Inv(s) && i < |s.ops| && j < |s.ops| && i != j
    requires |stack.threads| == |s.stack.threads| && stack.threads[j] == s.stack.threads[j]
    requires forall n :: n !in s.stack.threads[i].held ==> Stack.Next(stack.next, n) == Stack.Next(s.stack.next, n)
    requires Closed(s) ==> stack.top == Stack.ClosedMarker
    ensures OpInv(s.(stack := stack), j, s.ops[j])
  {
    var op, held := s.ops[j], s.stack.threads[j].held;
    assert OpInv(s, j, op);
    forall n | n in held
      ensures Stack.Next(stack.next, n) == Stack.Next(s.stack.next, n)
    {
      Stack.HeldByNobodyElse(s.stack, j, n);
    }
    if op.pc.Attaching? {
      Stack.LinkedIsUnaffected(s.stack.next, op.pc.top, held[|op.attached|..], stack.next);
    } else if op.pc == Pushing {
      assert j in held;
    }
  }

  ghost predicate MoveFits(op: Op, i: nat, move: Stack.Move) {
    match op.pc
    case Start => if Checked(op.kind) then move == Stack.TryPush(i) else !op.kind.CountDown? && move == Stack.Push(i)
    case Pushing => move == Stack.Continue(i, true) || move == Stack.Continue(i, false)
    case Closing => move == Stack.Close(i)
    case _ => false
  }

  lemma StackStep(s: State, i: nat, move: Stack.Move, s': State)
    requires Inv(s) && i < |s.ops| && MoveFits(s.ops[i], i, move) && StackMove(s, i, move) == Some(s')
    ensures Inv(s')
  {
    Stack.StepKeepsInv(s.stack, move);
    Stack.StepTouchesOwn(s.stack, move);
    if move.Close? { CloserInv(s, i, s'); } else { PusherInv(s, i, move, s'); }
    StackStepOps(s, i, move, s');
    assert OpInv(s, i, s.ops[i]);
    SameCounter(s, i, s');
  }

  lemma StackStepOps(s: State, i: nat, move: Stack.Move, s': State)
    requires Inv(s) && i < |s.ops| && MoveFits(s.ops[i], i, move) && StackMove(s, i, move) == Some(s')
    requires |s'.stack.threads| == |s.ops| && OpInv(s', i, s'.ops[i])
    ensures forall j :: 0 <= j < |s'.ops| ==> OpInv(s', j, s'.ops[j])
  {
    Stack.StepTouchesOwn(s.stack, move);
    forall j | 0 <= j < |s.ops| && j != i
      ensures OpInv(s', j, s'.ops[j])
    {
      OthersUndisturbed(s, s'.stack, i, j);
      assert OpInv(s.(stack := s'.stack), j, s.ops[j]);
    }
  }

  lemma PusherInv(s: State, i: nat, move: Stack.Move, s': State)
    requires Inv(s) && i < |s.ops| && MoveFits(s.ops[i], i, move) && StackMove(s, i, move) == Some(s') && !move.Close?
    ensures |s'.stack.threads| == |s.ops| && OpInv(s', i, s'.ops[i])
    ensures Owes(s'.ops[i]) == Owes(s.ops[i]) && s'.ops[i].pc != Closing && !Closer(s'.ops[i])
    ensures s'.stack.top == Stack.ClosedMarker ==> Closed(s)
  {
    assert OpInv(s, i, s.ops[i]);
    assert Stack.ThreadInv(s.stack.next, s.stack.threads[i]);
  }

  lemma CloserInv(s: State, i: nat, s': State)
    requires Inv(s) && i < |s.ops| && s.ops[i].pc == Closing && StackMove(s, i, Stack.Close(i)) == Some(s')
    ensures |s'.stack.threads| == |s.ops| && OpInv(s', i, s'.ops[i]) && s'.stack.top == Stack.ClosedMarker
  {
    assert OpInv(s, i, s.ops[i]);
  }

  /** The subtraction keeps the counter above what is still reserved; the operation that brings it to zero,
      and there is only one that subtracts more than nothing, goes on to close. */
  lemma ArriveKeepsInv(s: State, i: nat, s': State)
    requires Inv(s) && i < |s.ops| && s.ops[i].pc == Arriving && Step(s, i, false) == Some(s')
    ensures Inv(s')
  {
    assert OpInv(s, i, s.ops[i]);
    Sums.Update(s.ops, Owes, i, s'.ops[i]);
    FreedWereAttached(s, i, s');
    forall j | 0 <= j < |s.ops|
      ensures OpInv(s', j, s'.ops[j])
    {
      assert OpInv(s, j, s.ops[j]);
    }
    if s'.counter == 0 {
      assert s'.ops[i].pc == Closing;
    }
    if Amount(s.ops[i].kind) > 0 {
      forall j | 0 <= j < |s.ops|
        ensures !Closer(s.ops[j])
      {
        assert OpInv(s, j, s.ops[j]);
      }
    }
  }

  // ----- runs -----

  /** A new latch, its operations not begun and their arrivals within the count. */
  ghost predicate Initial(s: State) {
    && s.counter >= Reserved(s.ops) && s.freed == {}
    && s.stack.top == (if s.counter == 0 then Stack.ClosedMarker else Stack.Null)
    && s.stack.list == []
    && |s.stack.threads| == |s.ops|
    && (forall i :: 0 <= i < |s.ops| ==>
      && s.ops[i].pc == Start && s.ops[i].attached == []
      && s.stack.threads[i] == Stack.Thread(if s.ops[i].kind.CountDown? then [] else [i], Stack.Idle))
  }

  /** Any interleaving: `turns[k]` says which operation makes step `k`, and whether a weak exchange fails. */
  ghost predicate Run(states: seq<State>, turns: seq<(nat, bool)>) {
    && |states| == |turns| + 1
    && Initial(states[0])
    && forall k :: 0 <= k < |turns| ==> CanStep(states[k], turns[k], states[k + 1])
  }

  ghost predicate CanStep(s: State, turn: (nat, bool), s': State) {
    && turn.0 < |s.ops| && s.ops[turn.0].pc != Done
    && Step(s, turn.0, turn.1) == Some(s')
  }

  /** The waiters' nodes, each once. */
  ghost predicate OneNodeEach(s: State) {
    forall n: Id :: Stack.Copies(s.stack, n) == if n < |s.ops| && !s.ops[n].kind.CountDown? then 1 else 0
  }

  lemma {:induction false} InitialHeld(ops: seq<Op>, threads: seq<Stack.Thread>, n: Id)
    requires |threads| == |ops|
    requires forall i :: 0 <= i < |ops| ==> threads[i].held == if ops[i].kind.CountDown? then [] else [i]
    ensures Stack.Held(threads, n) == if n < |ops| && !ops[n].kind.CountDown? then 1 else 0
    decreases ops
  {
    if ops != [] {
      InitialHeld(ops[..|ops| - 1], threads[..|ops| - 1], n);
    }
  }

  lemma InitialInv(s: State)
    requires Initial(s)
    ensures Inv(s) && OneNodeEach(s)
  {
    forall n: Id
      ensures Stack.Copies(s.stack, n) == if n < |s.ops| && !s.ops[n].kind.CountDown? then 1 else 0
    {
      InitialHeld(s.ops, s.stack.threads, n);
    }
    forall i | 0 <= i < |s.ops|
      ensures OpInv(s, i, s.ops[i]) && Stack.ThreadInv(s.stack.next, s.stack.threads[i])
    {
    }
  }

  lemma NextKeepsInv(s: State, turn: (nat, bool), s': State)
    requires Inv(s) && OneNodeEach(s) && CanStep(s, turn, s')
    ensures Inv(s') && OneNodeEach(s')
  {
    StepKeepsInv(s, turn.0, turn.1, s');
    StepKeepsNodes(s, turn.0, turn.1, s');
  }

  lemma {:induction false} RunKeepsInv(states: seq<State>, turns: seq<(nat, bool)>, k: nat)
    requires Run(states, turns) && k < |states|
    ensures Inv(states[k]) && OneNodeEach(states[k])
  {
    if k == 0 {
      InitialInv(states[0]);
    } else {
      RunKeepsInv(states, turns, k - 1);
      NextKeepsInv(states[k - 1], turns[k - 1], states[k]);
    }
  }

  // ----- the counter -----

  /** What an operation is called with. */
  function Called(op: Op): nat {
    match op.kind
    case CountDown(n) => n
    case Wait => 0
    case ArriveAndWait(n) => n
  }

  /** What it has subtracted of it. */
  function Arrived(op: Op): nat {
    match op.pc
    case Closing => Called(op)
    case Attaching(_) => Called(op)
    case Done => Called(op)
    case _ => 0
  }

  lemma StepCounts(s: State, i: nat, spurious: bool, s': State)
    requires i < |s.ops| && s.ops[i].pc != Done && Step(s, i, spurious) == Some(s')
    ensures s'.counter + Sums.Sum(s'.ops, Arrived) == s.counter + Sums.Sum(s.ops, Arrived)
  {
    Sums.Update(s.ops, Arrived, i, s'.ops[i]);
  }

  /** The counter is the initial count less what the operations that have subtracted were called with. */
  lemma {:induction false} CounterIsWhatIsLeft(states: seq<State>, turns: seq<(nat, bool)>, k: nat)
    requires Run(states, turns) && k < |states|
    ensures states[k].counter == states[0].counter - Sums.Sum(states[k].ops, Arrived)
  {
    if k == 0 {
      Sums.Constant(states[0].ops, Arrived, 0);
    } else {
      CounterIsWhatIsLeft(states, turns, k - 1);
      assert CanStep(states[k - 1], turns[k - 1], states[k]);
      StepCounts(states[k - 1], turns[k - 1].0, turns[k - 1].1, states[k]);
    }
  }

  // ----- what holds over all runs -----

  /** No run gets stuck or breaks a precondition of the stack. */
  lemma NoOperationBreaksTheStack(states: seq<State>, turns: seq<(nat, bool)>, k: nat, i: nat, spurious: bool)
    requires Run(states, turns) && k < |states| && i < |states[k].ops| && states[k].ops[i].pc != Done
    ensures Step(states[k], i, spurious).Some?
  {
    RunKeepsInv(states, turns, k);
    StepIsSafe(states[k], i, spurious);
  }

  /** A closed latch has counted to zero; one that has counted to zero but is still open has an operation
      between its subtraction and its close. */
  lemma ClosedIffZero(states: seq<State>, turns: seq<(nat, bool)>, k: nat)
    requires Run(states, turns) && k < |states|
    ensures Closed(states[k]) ==> states[k].counter == 0
    ensures states[k].counter == 0 && !Closed(states[k]) ==>
              exists i :: 0 <= i < |states[k].ops| && states[k].ops[i].pc == Closing
  {
    RunKeepsInv(states, turns, k);
  }

  /** No waiter goes to the executor, and none continues without suspending, before the counter is zero. */
  lemma NobodyWakesEarly(states: seq<State>, turns: seq<(nat, bool)>, k: nat, i: nat)
    requires Run(states, turns) && k < |states| && i < |states[k].ops|
    requires var s := states[k]; s.ops[i].attached != [] || (|s.stack.threads| == |s.ops| && Refused(s, i, s.ops[i]))
    ensures states[k].counter == 0 && Closed(states[k])
  {
    RunKeepsInv(states, turns, k);
    assert OpInv(states[k], i, states[k].ops[i]);
  }

  lemma StepFrees(s: State, i: nat, spurious: bool, s': State)
    requires i < |s.ops| && s.ops[i].pc != Done && Step(s, i, spurious) == Some(s')
    requires forall n :: WasAttached(s.ops, n) ==> n in s.freed
    ensures forall n :: WasAttached(s'.ops, n) ==> n in s'.freed
  {
    forall n | WasAttached(s'.ops, n)
      ensures n in s'.freed
    {
      var j :| 0 <= j < |s'.ops| && n in s'.ops[j].attached;
      if n in s.ops[j].attached {
        assert WasAttached(s.ops, n);
      }
    }
  }

  /** An awaiter is gone as soon as it was attached, and only then. */
  lemma {:induction false} AttachedMeansGone(states: seq<State>, turns: seq<(nat, bool)>, k: nat)
    requires Run(states, turns) && k < |states|
    ensures forall n :: n in states[k].freed <==> WasAttached(states[k].ops, n)
  {
    RunKeepsInv(states, turns, k);
    if k > 0 {
      AttachedMeansGone(states, turns, k - 1);
      assert CanStep(states[k - 1], turns[k - 1], states[k]);
      StepFrees(states[k - 1], turns[k - 1].0, turns[k - 1].1, states[k]);
    }
  }

  ghost function AttachedBy(n: Id): Op -> nat {
    (op: Op) => multiset(op.attached)[n]
  }

  /** How often node `n` went to the executor. */
  ghost function Attached(ops: seq<Op>, n: Id): nat {
    Sums.Sum(ops, AttachedBy(n))
  }

  lemma {:induction false} HeldWhenDone(ops: seq<Op>, threads: seq<Stack.Thread>, refused: set<nat>, n: Id)
    requires |threads| == |ops|
    requires forall i :: 0 <= i < |ops| ==>
               if i in refused then threads[i].held == [i] && ops[i].attached == [] else threads[i].held == ops[i].attached
    ensures Stack.Held(threads, n) == Attached(ops, n) + if n < |ops| && n in refused then 1 else 0
    decreases ops
  {
    if ops != [] {
      HeldWhenDone(ops[..|ops| - 1], threads[..|ops| - 1], refused, n);
    }
  }

  /** When all operations are done, each waiter either was refused by try_push and continued, or went to the
      executor exactly once, or, if the counter is not zero, is still on the stack. */
  lemma EachWaiterWakesOnce(states: seq<State>, turns: seq<(nat, bool)>, k: nat, i: nat)
    requires Run(states, turns) && k < |states| && i < |states[k].ops|
    requires !states[k].ops[i].kind.CountDown?
    requires forall j :: 0 <= j < |states[k].ops| ==> states[k].ops[j].pc == Done
    ensures var s := states[k];
            && |s.stack.threads| == |s.ops|
            && (s.counter != 0 ==> Attached(s.ops, i) == 0 && multiset(s.stack.list)[i] == 1 && !Refused(s, i, s.ops[i]))
            && (s.counter == 0 ==> s.stack.list == [] && Attached(s.ops, i) == if Refused(s, i, s.ops[i]) then 0 else 1)
  {
    RunKeepsInv(states, turns, k);
    var s := states[k];
    var refused := set j: nat | j < |s.ops| && s.stack.threads[j].held != s.ops[j].attached;
    forall j | 0 <= j < |s.ops|
      ensures if j in refused then Refused(s, j, s.ops[j]) else s.stack.threads[j].held == s.ops[j].attached
    {
      assert OpInv(s, j, s.ops[j]);
    }
    HeldWhenDone(s.ops, s.stack.threads, refused, i);
    assert Stack.Copies(s.stack, i) == 1;
    assert OpInv(s, i, s.ops[i]);
    if s.counter != 0 {
      AttachedNothing(s, s.ops, i);
    }
  }

  lemma {:induction false} AttachedNothing(s: State, ops: seq<Op>, n: Id)
    requires Inv(s) && s.counter != 0 && ops <= s.ops
    ensures Attached(ops, n) == 0
    decreases ops
  {
    if ops != [] {
      var last := |ops| - 1;
      assert OpInv(s, last, s.ops[last]);
      AttachedNothing(s, ops[..last], n);
    }
  }

  lemma {:induction false} KindsStay(states: seq<State>, turns: seq<(nat, bool)>, k: nat)
    requires Run(states, turns) && k < |states|
    ensures |states[k].ops| == |states[0].ops|
    ensures forall i :: 0 <= i < |states[k].ops| ==> states[k].ops[i].kind == states[0].ops[i].kind
  {
    if k > 0 {
      KindsStay(states, turns, k - 1);
      RunKeepsInv(states, turns, k - 1);
      assert CanStep(states[k - 1], turns[k - 1], states[k]);
      StepKeepsNodes(states[k - 1], turns[k - 1].0, turns[k - 1].1, states[k]);
    }
  }

  /** When the operations were called with the initial count in all and are done, the counter is zero, and
      each waiter was refused and continued, or went to the executor exactly once. */
  lemma AllArrivedAllWoken(states: seq<State>, turns: seq<(nat, bool)>, k: nat, i: nat)
    requires Run(states, turns) && k < |states| && i < |states[k].ops|
    requires Sums.Sum(states[0].ops, Called) == states[0].counter
    requires forall j :: 0 <= j < |states[k].ops| ==> states[k].ops[j].pc == Done
    ensures states[k].counter == 0
    ensures var s := states[k];
            !s.ops[i].kind.CountDown? ==>
              |s.stack.threads| == |s.ops| && Attached(s.ops, i) == if Refused(s, i, s.ops[i]) then 0 else 1
  {
    KindsStay(states, turns, k);
    Sums.Pointwise(states[k].ops, Arrived, states[0].ops, Called);
    CounterIsWhatIsLeft(states, turns, k);
    if !states[k].ops[i].kind.CountDown? {
      EachWaiterWakesOnce(states, turns, k, i);
    }
  }

  // ----- an operation that runs alone -----

  /** How many steps operation `i` is from its end if nobody else moves and no exchange fails for no reason. */
  ghost function Effort(s: State, i: nat): nat
    requires i < |s.ops| == |s.stack.threads|
  {
    var waiters, thread := |s.stack.list|, s.stack.threads[i];
    match s.ops[i].pc
    case Start => waiters + 8
    case Pushing => waiters + 4 + Stack.Effort(s.stack, i)
    case Arriving => waiters + 3
    case Closing => waiters + 2
    case Attaching(_) => if |thread.held| < |s.ops[i].attached| then 0 else |thread.held| - |s.ops[i].attached| + 1
    case Done => 0
  }

  lemma PushingDecreases(s: State, i: nat, s': State)
    requires Inv(s) && i < |s.ops| && s.ops[i].pc == Pushing && Step(s, i, false) == Some(s')
    ensures |s'.ops| == |s'.stack.threads| == |s.ops| && Effort(s', i) < Effort(s, i)
  {
    assert OpInv(s, i, s.ops[i]);
    assert Stack.ThreadInv(s.stack.next, s.stack.threads[i]);
    Stack.EffortDecreases(s.stack, i);
    Stack.OwnStep(s.stack, i, false);
  }

  lemma EffortDecreases(s: State, i: nat, s': State)
    requires Inv(s) && i < |s.ops| && s.ops[i].pc != Done && Step(s, i, false) == Some(s')
    ensures |s'.ops| == |s'.stack.threads| == |s.ops| && Effort(s', i) < Effort(s, i)
  {
    assert OpInv(s, i, s.ops[i]);
    match s.ops[i].pc
    case Start =>
    case Pushing => PushingDecreases(s, i, s');
    case Arriving =>
    case Closing =>
    case Attaching(top) =>
  }

  /** Every operation comes to its end when it runs alone and no exchange fails for no reason: it makes at most
      one step for each waiter it finds or hands over, and eight others. */
  lemma AloneItFinishes(states: seq<State>, turns: seq<(nat, bool)>, a: nat, k: nat, i: nat)
    requires Run(states, turns) && a <= k <= |turns| && i < |states[a].ops|
    requires forall l :: a <= l < k ==> turns[l] == (i, false)
    ensures |states[a].ops| == |states[a].stack.threads|
    ensures k - a <= |states[a].stack.list| + |states[a].stack.threads[i].held| + 8
  {
    RunKeepsInv(states, turns, a);
    assert OpInv(states[a], i, states[a].ops[i]);
    forall l | a <= l < k
      ensures Nearer(states[l], states[l + 1], i)
    {
      EffortNext(states, turns, l, i);
    }
    EffortIsLeft(states, a, k, i);
  }

  ghost predicate Nearer(s: State, s': State, i: nat) {
    i < |s.ops| == |s.stack.threads| && i < |s'.ops| == |s'.stack.threads| && Effort(s', i) < Effort(s, i)
  }

  lemma {:induction false} EffortIsLeft(states: seq<State>, a: nat, k: nat, i: nat)
    requires a <= k < |states| && i < |states[a].ops| == |states[a].stack.threads|
    requires forall l :: a <= l < k ==> Nearer(states[l], states[l + 1], i)
    ensures i < |states[k].ops| == |states[k].stack.threads|
    ensures Effort(states[k], i) + k - a <= Effort(states[a], i)
    decreases k
  {
    if a < k {
      EffortIsLeft(states, a, k - 1, i);
      assert Nearer(states[k - 1], states[k - 1 + 1], i);
    }
  }

  lemma EffortNext(states: seq<State>, turns: seq<(nat, bool)>, k: nat, i: nat)
    requires Run(states, turns) && k < |turns| && turns[k] == (i, false)
    ensures Nearer(states[k], states[k + 1], i)
  {
    RunKeepsInv(states, turns, k);
    assert CanStep(states[k], turns[k], states[k + 1]);
    EffortDecreases(states[k], i, states[k + 1]);
  }

  /** A waiter that goes to the executor, after which its awaiter and the latch may be gone, has left the
      latch itself, unless `count_down(0)` overtakes the operation that brought the counter to zero. */
  lemma AttachedWaiterHasLeft(states: seq<State>, turns: seq<(nat, bool)>, k: nat, j: nat, n: Id)
    requires Run(states, turns) && k < |states| && j < |states[k].ops| && n in states[k].ops[j].attached
    ensures n < |states[k].ops| && !states[k].ops[n].kind.CountDown?
    ensures var op := states[k].ops[n];
            op.pc == Done || op.pc.Attaching? || (op.pc == Closing && states[k].ops[j].kind == CountDown(0))
  {
    RunKeepsInv(states, turns, k);
    var s := states[k];
    assert OpInv(s, j, s.ops[j]);
    assert multiset(s.ops[j].attached)[n] > 0;
    assert n in s.stack.threads[j].held;
    Sums.Update(s.stack.threads, Stack.HeldBy(n), j, s.stack.threads[j]);
    assert Stack.Copies(s.stack, n) > 0;
    assert OpInv(s, n, s.ops[n]);
    Sums.Update(s.ops, Owes, n, s.ops[n]);
    Stack.HeldByNobodyElse(s.stack, j, n);
  }
}
