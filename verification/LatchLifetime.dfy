/** When exactly a waiter of a latch can return while another operation is still inside the latch, so that the
latch may not yet be destroyed. */
module LatchLifetime {

  import opened Wrappers
  import opened Latch
  import Stack = LockfreeStack
  import Sums

  /** Some run of the operations of `s0` leads to `s`. */
  ghost predicate Reaches(s0: State, s: State) {
    exists states: seq<State>, turns: seq<(nat, bool)> :: Run(states, turns) && states[0] == s0 && states[|turns|] == s
  }

  lemma ReachesItself(s0: State)
    requires Initial(s0)
    ensures Reaches(s0, s0) && Inv(s0)
  {
    assert Run([s0], []) && [s0][0] == s0;
    InitialInv(s0);
  }

  /** Operation `i` makes a step in which no exchange fails for no reason. */
  lemma ReachesNext(s0: State, s: State, i: nat) returns (s': State)
    requires Reaches(s0, s) && Inv(s) && i < |s.ops| && s.ops[i].pc != Done
    ensures Step(s, i, false) == Some(s') && Reaches(s0, s') && Inv(s')
  {
    StepIsSafe(s, i, false);
    s' := Step(s, i, false).value;
    StepKeepsInv(s, i, false, s');
    var states: seq<State>, turns: seq<(nat, bool)> :|
      Run(states, turns) && states[0] == s0 && states[|turns|] == s;
    assert CanStep(s, (i, false), s');
    assert Run(states + [s'], turns + [(i, false)]);
  }

  // ----- who returned, and who is inside -----

  /** A waiter was woken while some operation has yet to close the latch. */
  ghost predicate WokenTooEarly(s: State) {
    && (exists j :: 0 <= j < |s.ops| && s.ops[j].attached != [])
    && (exists m :: 0 <= m < |s.ops| && s.ops[m].pc == Closing)
  }

  /** The waiter returned to its coroutine: it was woken, or it was refused and continued. */
  ghost predicate Returned(s: State, i: nat)
    requires i < |s.ops| == |s.stack.threads|
  {
    WasAttached(s.ops, i) || Refused(s, i, s.ops[i])
  }

  /** Some waiter returned while some count_down or arrival has yet to subtract or to close. */
  ghost predicate ReturnedTooEarly(s: State) {
    && |s.ops| == |s.stack.threads|
    && (exists i :: 0 <= i < |s.ops| && Returned(s, i))
    && (exists m :: 0 <= m < |s.ops| && (s.ops[m].pc == Arriving || s.ops[m].pc == Closing))
  }

  /** The arrivals that are promised to nobody: they stay what they are. */
  ghost function Spare(s: State): int {
    s.counter - Reserved(s.ops)
  }

  ghost predicate SomeWaiter(s: State) {
    exists i :: 0 <= i < |s.ops| && !s.ops[i].kind.CountDown?
  }

  ghost predicate SomeZeroCountDown(s: State) {
    exists i :: 0 <= i < |s.ops| && s.ops[i].kind == CountDown(0)
  }

  // ----- what a run keeps -----

  lemma StepKeepsSpare(s: State, i: nat, spurious: bool, s': State)
    requires Inv(s) && i < |s.ops| && s.ops[i].pc != Done && Step(s, i, spurious) == Some(s')
    ensures Spare(s') == Spare(s)
  {
    assert OpInv(s, i, s.ops[i]);
    Sums.Update(s.ops, Owes, i, s'.ops[i]);
    if s.ops[i].pc == Pushing {
      assert Stack.ThreadInv(s.stack.next, s.stack.threads[i]);
    }
  }

  ghost predicate SameKinds(s: State, s': State) {
    && |s'.ops| == |s.ops|
    && forall i :: 0 <= i < |s.ops| ==> s'.ops[i].kind == s.ops[i].kind
  }

  lemma NextKeepsSpare(s: State, turn: (nat, bool), s': State)
    requires Inv(s) && CanStep(s, turn, s')
    ensures Spare(s') == Spare(s) && SameKinds(s, s')
  {
    StepKeepsSpare(s, turn.0, turn.1, s');
    StepKeepsNodes(s, turn.0, turn.1, s');
  }

  lemma {:induction false} RunKeepsSpare(states: seq<State>, turns: seq<(nat, bool)>, k: nat)
    requires Run(states, turns) && k < |states|
    ensures Spare(states[k]) == Spare(states[0]) && SameKinds(states[0], states[k])
  {
    if k > 0 {
      RunKeepsSpare(states, turns, k - 1);
      RunKeepsInv(states, turns, k - 1);
      assert CanStep(states[k - 1], turns[k - 1], states[k]);
      NextKeepsSpare(states[k - 1], turns[k - 1], states[k]);
    }
  }

  /** A latch made with a count of zero never has anybody to wake. */
  ghost predicate NobodyToWake(s: State) {
    && Closed(s)
    && forall i :: 0 <= i < |s.ops| ==>
      s.ops[i].attached == [] && (s.ops[i].pc.Attaching? ==> s.ops[i].pc.top == Stack.Null)
  }

  lemma NextWakesNobody(s: State, turn: (nat, bool), s': State)
    requires Inv(s) && NobodyToWake(s) && CanStep(s, turn, s')
    ensures NobodyToWake(s')
  {
    var i := turn.0;
    assert OpInv(s, i, s.ops[i]);
    Sums.Update(s.ops, Owes, i, s.ops[i]);
    StaysClosed(s, turn, s');
  }

  lemma StaysClosed(s: State, turn: (nat, bool), s': State)
    requires Inv(s) && CanStep(s, turn, s')
    ensures Closed(s) ==> Closed(s')
    ensures Closed(s') && !Closed(s) ==> s.ops[turn.0].pc == Closing
  {
    var i := turn.0;
    match s.ops[i].pc
    case Start =>
      if Checked(s.ops[i].kind) && !Closed(s) {
        Stack.StepTouchesOwn(s.stack, Stack.TryPush(i));
      } else if !s.ops[i].kind.CountDown? && !Checked(s.ops[i].kind) {
        Stack.StepTouchesOwn(s.stack, Stack.Push(i));
      }
    case Pushing => Stack.StepTouchesOwn(s.stack, Stack.Continue(i, turn.1));
    case Closing => Stack.StepTouchesOwn(s.stack, Stack.Close(i));
    case _ =>
  }

  lemma {:induction false} RunFromZero(states: seq<State>, turns: seq<(nat, bool)>, k: nat)
    requires Run(states, turns) && k < |states| && states[0].counter == 0
    ensures NobodyToWake(states[k])
  {
    if k > 0 {
      RunFromZero(states, turns, k - 1);
      RunKeepsInv(states, turns, k - 1);
      assert CanStep(states[k - 1], turns[k - 1], states[k]);
      NextWakesNobody(states[k - 1], turns[k - 1], states[k]);
    }
  }

  /** Without `count_down(0)` nobody has yet to close a latch that is closed. */
  ghost predicate ClosedByTheLast(s: State) {
    Closed(s) ==> forall m :: 0 <= m < |s.ops| ==> s.ops[m].pc != Closing
  }

  lemma NextClosedByTheLast(s: State, turn: (nat, bool), s': State)
    requires Inv(s) && CanStep(s, turn, s') && ClosedByTheLast(s) && !SomeZeroCountDown(s)
    ensures ClosedByTheLast(s')
  {
    var i := turn.0;
    StaysClosed(s, turn, s');
    assert OpInv(s, i, s.ops[i]);
    if Closed(s') {
      forall m | 0 <= m < |s'.ops|
        ensures s'.ops[m].pc != Closing
      {
        assert m != i ==> s'.ops[m] == s.ops[m] && OpInv(s, m, s.ops[m]);
      }
    }
  }

  lemma SameKindsSameZero(s0: State, s: State)
    requires SameKinds(s0, s)
    ensures SomeZeroCountDown(s) <==> SomeZeroCountDown(s0)
  {
    assert forall i :: 0 <= i < |s.ops| ==> s.ops[i].kind == s0.ops[i].kind;
  }

  lemma BeforeIsOpen(s: State)
    requires Initial(s)
    ensures ClosedByTheLast(s)
  {
  }

  lemma {:induction false} RunClosedByTheLast(states: seq<State>, turns: seq<(nat, bool)>, k: nat)
    requires Run(states, turns) && k < |states| && !SomeZeroCountDown(states[0])
    ensures ClosedByTheLast(states[k])
  {
    if k == 0 {
      BeforeIsOpen(states[0]);
    } else {
      RunClosedByTheLast(states, turns, k - 1);
      RunKeepsInv(states, turns, k - 1);
      RunKeepsSpare(states, turns, k - 1);
      SameKindsSameZero(states[0], states[k - 1]);
      assert CanStep(states[k - 1], turns[k - 1], states[k]);
      NextClosedByTheLast(states[k - 1], turns[k - 1], states[k]);
    }
  }

  // ----- only if -----

  /** An operation that is about to close, or has closed, and subtracts nothing is `count_down(0)`. */
  lemma ZeroCloser(s: State, m: nat)
    requires Inv(s) && m < |s.ops| && Amount(s.ops[m].kind) == 0
    requires s.ops[m].pc == Closing || s.ops[m].pc == Arriving || s.ops[m].attached != []
    ensures s.ops[m].kind == CountDown(0)
  {
    assert OpInv(s, m, s.ops[m]);
  }

  lemma AtZero(s: State)
    requires Inv(s) && s.counter == 0
    ensures Spare(s) == 0
    ensures forall m :: 0 <= m < |s.ops| && s.ops[m].pc == Arriving ==> Amount(s.ops[m].kind) == 0
  {
    forall m | 0 <= m < |s.ops| && s.ops[m].pc == Arriving
      ensures Amount(s.ops[m].kind) == 0
    {
      Sums.Update(s.ops, Owes, m, s.ops[m]);
    }
  }

  /** Two operations that went on to close: one of them subtracted nothing. */
  lemma OneOfTwoClosersIsZero(s: State, j: nat, m: nat) returns (zero: nat)
    requires Inv(s) && j < |s.ops| && m < |s.ops| && s.ops[j].attached != [] && s.ops[m].pc == Closing
    ensures zero < |s.ops| && s.ops[zero].kind == CountDown(0)
  {
    assert OpInv(s, j, s.ops[j]);
    zero := if Amount(s.ops[m].kind) == 0 then m else j;
    ZeroCloser(s, zero);
  }

  lemma WokenOnlyIf(states: seq<State>, turns: seq<(nat, bool)>)
    requires Run(states, turns) && WokenTooEarly(states[|turns|])
    ensures states[0].counter > 0 && Spare(states[0]) == 0 && SomeWaiter(states[0]) && SomeZeroCountDown(states[0])
  {
    var s := states[|turns|];
    RunKeepsSpare(states, turns, |turns|);
    var j :| 0 <= j < |s.ops| && s.ops[j].attached != [];
    var m :| 0 <= m < |s.ops| && s.ops[m].pc == Closing;
    AttachedWaiterHasLeft(states, turns, |turns|, j, s.ops[j].attached[0]);
    assert SomeWaiter(states[0]);
    if states[0].counter == 0 {
      RunFromZero(states, turns, |turns|);
    }
    RunKeepsInv(states, turns, |turns|);
    var zero := OneOfTwoClosersIsZero(s, j, m);
    assert states[0].ops[zero].kind == CountDown(0);
    ClosingIsAtZero(s, m);
  }

  lemma ClosingIsAtZero(s: State, m: nat)
    requires Inv(s) && m < |s.ops| && s.ops[m].pc == Closing
    ensures Spare(s) == 0
  {
    assert OpInv(s, m, s.ops[m]);
  }

  /** A waiter that returned has seen the latch closed. */
  lemma ReturnedMeansClosed(s: State, i: nat)
    requires Inv(s) && i < |s.ops| && Returned(s, i)
    ensures Closed(s) && s.counter == 0
  {
    if WasAttached(s.ops, i) {
      var j :| 0 <= j < |s.ops| && i in s.ops[j].attached;
      AttachedIsHeld(s, j, i);
    }
  }

  lemma ReturnedIsWaiter(states: seq<State>, turns: seq<(nat, bool)>, k: nat, i: nat)
    requires Run(states, turns) && k < |states| && i < |states[k].ops| == |states[k].stack.threads| && Returned(states[k], i)
    ensures !states[k].ops[i].kind.CountDown?
  {
    var s := states[k];
    if WasAttached(s.ops, i) {
      var j :| 0 <= j < |s.ops| && i in s.ops[j].attached;
      AttachedWaiterHasLeft(states, turns, k, j, i);
    }
  }

  lemma ReturnedOnlyIf(states: seq<State>, turns: seq<(nat, bool)>)
    requires Run(states, turns) && ReturnedTooEarly(states[|turns|])
    ensures Spare(states[0]) == 0 && SomeWaiter(states[0]) && SomeZeroCountDown(states[0])
  {
    var s := states[|turns|];
    RunKeepsInv(states, turns, |turns|);
    RunKeepsSpare(states, turns, |turns|);
    var i :| 0 <= i < |s.ops| && Returned(s, i);
    var m :| 0 <= m < |s.ops| && (s.ops[m].pc == Arriving || s.ops[m].pc == Closing);
    ReturnedIsWaiter(states, turns, |turns|, i);
    assert !states[0].ops[i].kind.CountDown?;
    ReturnedAtZero(s, i, m);
    if s.ops[m].pc == Arriving {
      assert states[0].ops[m].kind == CountDown(0);
    } else if !SomeZeroCountDown(states[0]) {
      RunClosedByTheLast(states, turns, |turns|);
    }
  }

  lemma ReturnedAtZero(s: State, i: nat, m: nat)
    requires Inv(s) && i < |s.ops| && Returned(s, i) && m < |s.ops|
    ensures Closed(s) && Spare(s) == 0
    ensures s.ops[m].pc == Arriving ==> s.ops[m].kind == CountDown(0)
  {
    ReturnedMeansClosed(s, i);
    AtZero(s);
    if s.ops[m].pc == Arriving {
      ZeroCloser(s, m);
    }
  }

  // ----- if: pushing and subtracting alone -----

  /** What one operation leaves behind when it runs alone up to its subtraction. */
  ghost predicate Subtracted(s: State, s': State, i: nat)
    requires i < |s.ops|
  {
    && s'.counter == s.counter - Amount(s.ops[i].kind)
    && s'.ops == s.ops[i := Op(s.ops[i].kind, if s'.counter == 0 then Closing else Done, [])]
    && (s.ops[i].kind.ArriveAndWait? || s.stack.top.Node? ==> s'.stack.top.Node?)
  }

  /** What is pushed alone, in the steps of the stack: the top is loaded, checked if need be, and exchanged. */
  lemma LoadStep(s: State, i: nat)
    requires i < |s.ops| == |s.stack.threads| && s.ops[i].pc == Pushing && s.stack.threads[i].pc.Load?
    ensures var pc, step := s.stack.threads[i].pc, Step(s, i, false);
            step.Some? ==>
              && step.value.counter == s.counter && step.value.ops == s.ops && step.value.stack.top == s.stack.top
              && |step.value.stack.threads| == |s.ops|
              && step.value.stack.threads[i].pc
                 == (if pc.checked then Stack.Check(pc.first, pc.last) else Stack.Exchange(false, pc.first, pc.last))
              && Stack.Next(step.value.stack.next, pc.last) == s.stack.top
  {
    assert s.ops[i := s.ops[i].(pc := Pushing)] == s.ops;
  }

  lemma CheckStep(s: State, i: nat)
    requires i < |s.ops| == |s.stack.threads| && s.ops[i].pc == Pushing && s.stack.threads[i].pc == Stack.Check(i, i)
    requires Stack.Next(s.stack.next, i) != Stack.ClosedMarker
    ensures var step := Step(s, i, false);
            step.Some? ==>
              && step.value.counter == s.counter && step.value.ops == s.ops
              && |step.value.stack.threads| == |s.ops| && step.value.stack.threads[i].pc == Stack.Exchange(true, i, i)
              && step.value.stack.top == s.stack.top && step.value.stack.next == s.stack.next
  {
    assert s.ops[i := s.ops[i].(pc := Pushing)] == s.ops;
  }

  lemma ExchangeStep(s: State, i: nat, checked: bool)
    requires i < |s.ops| == |s.stack.threads| && s.ops[i].pc == Pushing
    requires s.stack.threads[i].pc == Stack.Exchange(checked, i, i) && Stack.Next(s.stack.next, i) == s.stack.top
    ensures var step := Step(s, i, false);
            step.Some? ==>
              && step.value.counter == s.counter && step.value.stack.top == Stack.Node(i)
              && step.value.ops == s.ops[i := s.ops[i].(pc := if Checked(s.ops[i].kind) then Done else Arriving)]
  {
  }

  lemma StartStep(s: State, i: nat)
    requires i < |s.ops| == |s.stack.threads| && s.ops[i].pc == Start && !s.ops[i].kind.CountDown? && !Closed(s)
    requires s.stack.threads[i] == Stack.Thread([i], Stack.Idle)
    ensures var step := Step(s, i, false);
            step.Some? ==>
              && step.value.counter == s.counter && step.value.ops == s.ops[i := s.ops[i].(pc := Pushing)]
              && step.value.stack.top == s.stack.top && |step.value.stack.threads| == |s.ops|
              && step.value.stack.threads[i].pc == Stack.Load(Checked(s.ops[i].kind), i, i)
  {
  }

  lemma ThreadPerOp(s: State, i: nat)
    requires Inv(s) && i < |s.ops|
    ensures |s.stack.threads| == |s.ops|
    ensures s.ops[i].pc == Start ==>
              s.stack.threads[i] == Stack.Thread(if s.ops[i].kind.CountDown? then [] else [i], Stack.Idle)
  {
    assert OpInv(s, i, s.ops[i]);
  }

  /** Loading alone: what was loaded is still the top. */
  lemma LoadsAlone(s0: State, s: State, i: nat) returns (s': State)
    requires Reaches(s0, s) && Inv(s) && i < |s.ops| && s.ops[i].pc == Start && !Closed(s) && !s.ops[i].kind.CountDown?
    ensures Reaches(s0, s') && Inv(s') && s'.counter == s.counter && s'.ops == s.ops[i := s.ops[i].(pc := Pushing)]
    ensures |s'.stack.threads| == |s.ops|
    ensures s'.stack.threads[i].pc == (if Checked(s.ops[i].kind) then Stack.Check(i, i) else Stack.Exchange(false, i, i))
    ensures Stack.Next(s'.stack.next, i) == s'.stack.top && !Closed(s')
  {
    ThreadPerOp(s, i);
    StartStep(s, i);
    var s1 := ReachesNext(s0, s, i);
    LoadStep(s1, i);
    s' := ReachesNext(s0, s1, i);
  }

  /** An unchecked push alone. */
  lemma PushesAlone(s0: State, s: State, i: nat) returns (s': State)
    requires Reaches(s0, s) && Inv(s) && i < |s.ops| && s.ops[i].pc == Start && !Closed(s)
    requires s.ops[i].kind.ArriveAndWait? && Amount(s.ops[i].kind) > 0
    ensures Reaches(s0, s') && Inv(s') && s'.counter == s.counter && s'.ops == s.ops[i := s.ops[i].(pc := Arriving)]
    ensures s'.stack.top.Node?
  {
    var s1 := LoadsAlone(s0, s, i);
    ExchangeStep(s1, i, false);
    s' := ReachesNext(s0, s1, i);
  }

  /** A checked push alone, of `wait` say. */
  lemma WaitsAlone(s0: State, s: State, i: nat) returns (s': State)
    requires Reaches(s0, s) && Inv(s) && i < |s.ops| && s.ops[i].pc == Start && !Closed(s) && Checked(s.ops[i].kind)
    ensures Reaches(s0, s') && Inv(s') && s'.counter == s.counter && s'.ops == s.ops[i := s.ops[i].(pc := Done)]
    ensures s'.stack.top.Node?
  {
    var s1 := LoadsAlone(s0, s, i);
    CheckStep(s1, i);
    var s2 := ReachesNext(s0, s1, i);
    ExchangeStep(s2, i, true);
    s' := ReachesNext(s0, s2, i);
  }

  lemma ArriveStep(s: State, i: nat)
    requires i < |s.ops| && s.ops[i].pc == Arriving
    ensures var step := Step(s, i, false);
            step.Some? ==>
              && step.value.counter == s.counter - Amount(s.ops[i].kind) && step.value.stack == s.stack
              && step.value.ops == s.ops[i := s.ops[i].(pc := if step.value.counter == 0 then Closing else Done)]
  {
  }

  lemma BeginsToSubtract(s0: State, s: State, i: nat) returns (s': State)
    requires Reaches(s0, s) && Inv(s) && i < |s.ops| && s.ops[i].pc == Start && Amount(s.ops[i].kind) > 0
    ensures Reaches(s0, s') && Inv(s') && s'.counter == s.counter && s'.ops == s.ops[i := s.ops[i].(pc := Arriving)]
    ensures s.ops[i].attached == []
    ensures s.ops[i].kind.ArriveAndWait? || s.stack.top.Node? ==> s'.stack.top.Node?
  {
    assert OpInv(s, i, s.ops[i]);
    Sums.Update(s.ops, Owes, i, s.ops[i]);
    if s.ops[i].kind.ArriveAndWait? {
      s' := PushesAlone(s0, s, i);
    } else {
      s' := ReachesNext(s0, s, i);
    }
  }

  lemma SubtractsAlone(s0: State, s: State, i: nat) returns (s': State)
    requires Reaches(s0, s) && Inv(s) && i < |s.ops| && s.ops[i].pc == Start && Amount(s.ops[i].kind) > 0
    ensures Reaches(s0, s') && Inv(s') && Subtracted(s, s', i)
  {
    var s1 := BeginsToSubtract(s0, s, i);
    ArriveStep(s1, i);
    s' := ReachesNext(s0, s1, i);
  }

  /** All that is to be subtracted is still with operations that have not begun. */
  ghost predicate Waiting(s: State) {
    && s.counter == Reserved(s.ops)
    && forall i :: 0 <= i < |s.ops| && Amount(s.ops[i].kind) > 0 ==> s.ops[i].pc == Start && s.ops[i].attached == []
  }

  /** From `a` on, all but operation `n` have subtracted among the first `k`. */
  ghost predicate Settled(a: State, s: State, n: nat, k: nat) {
    && |s.ops| == |a.ops|
    && s.counter == Reserved(s.ops)
    && (a.stack.top.Node? ==> s.stack.top.Node?)
    && forall i :: 0 <= i < |s.ops| ==>
      s.ops[i].kind == a.ops[i].kind &&
      if i < k && i != n && Amount(s.ops[i].kind) > 0 then s.ops[i].pc == Done else s.ops[i] == a.ops[i]
  }

  lemma {:induction false} Settle(s0: State, a: State, n: nat, k: nat) returns (s: State)
    requires Reaches(s0, a) && Inv(a) && Waiting(a) && n < |a.ops| && k <= |a.ops| && Amount(a.ops[n].kind) > 0
    ensures Reaches(s0, s) && Inv(s) && Settled(a, s, n, k)
  {
    if k == 0 {
      return a;
    }
    s := Settle(s0, a, n, k - 1);
    var i := k - 1;
    if i != n && Amount(s.ops[i].kind) > 0 {
      var s' := SubtractsAlone(s0, s, i);
      Sums.Update(s.ops, Owes, i, s'.ops[i]);
      Sums.Update(s'.ops, Owes, n, s'.ops[n]);
      assert s'.ops[n] == s.ops[n] == a.ops[n];
      s := s';
    }
  }

  /** Operation `n` is the last to subtract, and about to close. */
  lemma LastSubtracts(s0: State, a: State, n: nat) returns (s: State)
    requires Reaches(s0, a) && Inv(a) && Waiting(a) && n < |a.ops| && Amount(a.ops[n].kind) > 0
    ensures Reaches(s0, s) && Inv(s) && s.counter == 0 && |s.ops| == |a.ops| && s.ops[n].pc == Closing
    ensures forall i :: 0 <= i < |s.ops| && Amount(a.ops[i].kind) == 0 ==> s.ops[i] == a.ops[i]
    ensures a.stack.top.Node? || a.ops[n].kind.ArriveAndWait? ==> s.stack.top.Node?
  {
    var s1 := Settle(s0, a, n, |a.ops|);
    SettledOwes(a, s1, n);
    assert s1.ops[n] == a.ops[n];
    s := SubtractsAlone(s0, s1, n);
  }

  /** Then nobody else owes anything. */
  lemma SettledOwes(a: State, s: State, n: nat)
    requires Settled(a, s, n, |a.ops|) && n < |a.ops|
    ensures s.counter == Owes(s.ops[n])
  {
    var none := s.ops[n := s.ops[n].(pc := Done)];
    forall op | op in none
      ensures Owes(op) == 0
    {
      var i :| 0 <= i < |none| && none[i] == op;
      assert s.ops[i].kind == a.ops[i].kind;
    }
    Sums.Constant(none, Owes, 0);
    Sums.Update(s.ops, Owes, n, none[n]);
  }

  // ----- if: the latch at zero -----

  /** At zero `count_down(0)` subtracts nothing and goes on to close. */
  lemma SubtractsNothing(s0: State, s: State, j: nat) returns (s': State)
    requires Reaches(s0, s) && Inv(s) && j < |s.ops| && s.counter == 0 && s.ops[j] == Op(CountDown(0), Start, [])
    ensures Reaches(s0, s') && Inv(s') && s'.stack == s.stack
    ensures s'.ops == s.ops[j := Op(CountDown(0), Closing, [])]
  {
    var s1 := ReachesNext(s0, s, j);
    s' := ReachesNext(s0, s1, j);
  }

  /** Operation `m` is about to close; `count_down(0)` closes first and wakes a waiter. */
  lemma ClosesFirst(s0: State, s: State, m: nat, j: nat) returns (s': State)
    requires Reaches(s0, s) && Inv(s) && m < |s.ops| && j < |s.ops| && m != j
    requires s.ops[m].pc == Closing && s.ops[j] == Op(CountDown(0), Closing, []) && s.stack.top.Node?
    ensures Reaches(s0, s') && Inv(s') && WokenTooEarly(s')
  {
    var s1 := ReachesNext(s0, s, j);
    assert s1.ops[j] == Op(CountDown(0), Attaching(s.stack.top), []) && s1.ops[m].pc == Closing;
    s' := ReachesNext(s0, s1, j);
    assert s'.ops[j].attached == [s.stack.top.id] && s'.ops[m].pc == Closing;
  }

  lemma SomeAmount(ops: seq<Op>) returns (m: nat)
    requires Reserved(ops) > 0
    ensures m < |ops| && Owes(ops[m]) > 0
  {
    if forall op :: op in ops ==> Owes(op) == 0 {
      Sums.Constant(ops, Owes, 0);
    }
    var op :| op in ops && Owes(op) > 0;
    m :| 0 <= m < |ops| && ops[m] == op;
  }

  /** The waiter pushes itself first, unless it is the last to subtract anyway. */
  lemma SomebodyWaits(s0: State, w: nat) returns (a: State, m: nat)
    requires Initial(s0) && s0.counter > 0 && Spare(s0) == 0 && w < |s0.ops| && !s0.ops[w].kind.CountDown?
    requires Reaches(s0, s0) && Inv(s0)
    ensures Reaches(s0, a) && Inv(a) && Waiting(a) && m < |a.ops| == |s0.ops| && Amount(a.ops[m].kind) > 0
    ensures a.stack.top.Node? || a.ops[m].kind.ArriveAndWait?
    ensures forall i :: 0 <= i < |s0.ops| && s0.ops[i].kind.CountDown? ==> a.ops[i] == s0.ops[i]
  {
    a, m := s0, w;
    if Checked(s0.ops[w].kind) {
      m := SomeAmount(s0.ops);
      a := WaitsAlone(s0, s0, w);
      StillWaiting(s0, a, w);
    }
  }

  lemma StillWaiting(s0: State, a: State, w: nat)
    requires Initial(s0) && Spare(s0) == 0 && w < |s0.ops| && Amount(s0.ops[w].kind) == 0
    requires a.counter == s0.counter && a.ops == s0.ops[w := s0.ops[w].(pc := Done)]
    ensures Waiting(a)
  {
    Sums.Update(s0.ops, Owes, w, a.ops[w]);
  }

  lemma WokenIf(s0: State, w: nat, j: nat) returns (s: State)
    requires Initial(s0) && s0.counter > 0 && Spare(s0) == 0
    requires w < |s0.ops| && !s0.ops[w].kind.CountDown? && j < |s0.ops| && s0.ops[j].kind == CountDown(0)
    ensures Reaches(s0, s) && Inv(s) && WokenTooEarly(s)
  {
    ReachesItself(s0);
    var a, m := SomebodyWaits(s0, w);
    var s1 := LastSubtracts(s0, a, m);
    var s2 := SubtractsNothing(s0, s1, j);
    s := ClosesFirst(s0, s2, m, j);
  }

  /** A waiter that finds the latch closed from the start returns at once. */
  lemma ReturnsFromZero(s0: State, w: nat, j: nat) returns (s: State)
    requires Initial(s0) && s0.counter == 0
    requires w < |s0.ops| && !s0.ops[w].kind.CountDown? && j < |s0.ops| && s0.ops[j].kind == CountDown(0)
    ensures Reaches(s0, s) && ReturnedTooEarly(s)
  {
    ReachesItself(s0);
    Sums.Update(s0.ops, Owes, w, s0.ops[w]);
    assert OpInv(s0, w, s0.ops[w]);
    var s1 := ReachesNext(s0, s0, w);
    assert s1 == Goto(s0, w, Done);
    s := ReachesNext(s0, s1, j);
    assert Returned(s, w) && s.ops[j].pc == Arriving;
  }

  lemma WokenHasReturned(s: State)
    requires Inv(s) && WokenTooEarly(s) && OneNodeEach(s)
    ensures ReturnedTooEarly(s)
  {
    var j :| 0 <= j < |s.ops| && s.ops[j].attached != [];
    var n := s.ops[j].attached[0];
    AttachedIsHeld(s, j, n);
    Sums.Update(s.stack.threads, Stack.HeldBy(n), j, s.stack.threads[j]);
    assert Stack.Copies(s.stack, n) > 0;
    assert WasAttached(s.ops, n) && Returned(s, n);
  }

  // ----- exactly when -----

  /** For every count and every collection of operations: some interleaving wakes a waiter while another
      operation still has to close the latch if and only if the count is not zero, the operations can count
      it to zero, and among them are a waiter and a `count_down(0)`. */
  lemma WokenTooEarlyIff(s0: State)
    requires Initial(s0)
    ensures (exists s :: Reaches(s0, s) && WokenTooEarly(s)) <==>
            s0.counter > 0 && Spare(s0) == 0 && SomeWaiter(s0) && SomeZeroCountDown(s0)
  {
    if s0.counter > 0 && Spare(s0) == 0 && SomeWaiter(s0) && SomeZeroCountDown(s0) {
      var w :| 0 <= w < |s0.ops| && !s0.ops[w].kind.CountDown?;
      var j :| 0 <= j < |s0.ops| && s0.ops[j].kind == CountDown(0);
      var s := WokenIf(s0, w, j);
    }
    forall s | Reaches(s0, s) && WokenTooEarly(s)
      ensures s0.counter > 0 && Spare(s0) == 0 && SomeWaiter(s0) && SomeZeroCountDown(s0)
    {
      var states: seq<State>, turns: seq<(nat, bool)> :|
        Run(states, turns) && states[0] == s0 && states[|turns|] == s;
      WokenOnlyIf(states, turns);
    }
  }

  /** The same for waiters that return in any way, be it woken or refused, while some arrival still has to
      subtract or to close: without `count_down(0)` it never happens, with it it can whenever the operations
      can count to zero. */
  lemma ReturnedTooEarlyIff(s0: State)
    requires Initial(s0)
    ensures (exists s :: Reaches(s0, s) && ReturnedTooEarly(s)) <==>
            Spare(s0) == 0 && SomeWaiter(s0) && SomeZeroCountDown(s0)
  {
    if Spare(s0) == 0 && SomeWaiter(s0) && SomeZeroCountDown(s0) {
      var w :| 0 <= w < |s0.ops| && !s0.ops[w].kind.CountDown?;
      var j :| 0 <= j < |s0.ops| && s0.ops[j].kind == CountDown(0);
      if s0.counter == 0 {
        var s := ReturnsFromZero(s0, w, j);
      } else {
        var s := WokenIf(s0, w, j);
        var states: seq<State>, turns: seq<(nat, bool)> :|
          Run(states, turns) && states[0] == s0 && states[|turns|] == s;
        RunKeepsInv(states, turns, |turns|);
        WokenHasReturned(s);
      }
    }
    forall s | Reaches(s0, s) && ReturnedTooEarly(s)
      ensures Spare(s0) == 0 && SomeWaiter(s0) && SomeZeroCountDown(s0)
    {
      var states: seq<State>, turns: seq<(nat, bool)> :|
        Run(states, turns) && states[0] == s0 && states[|turns|] == s;
      ReturnedOnlyIf(states, turns);
    }
  }
}
