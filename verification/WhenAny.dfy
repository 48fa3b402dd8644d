/** `when_any`: the state shared by the children, its critical sections, and the protocol around them under
every interleaving. A child ends with a value, with an exception, or with a value whose move into the state
throws; in the last case the lock is given up between the attempt and the report of the exception. */
module WhenAny {

  import Sums
  import opened Wrappers

  type Handle = nat

  datatype Outcome = Value(value: int) | Error(error: int)

  /** `Thrower` is a value whose move throws. */
  datatype Child = Returns(value: int) | Fails(error: int) | Thrower(error: int)

  /** `when_any_state_dyn`; the result is missing before the first report and after a move that threw. */
  datatype Shared = Shared(owner: Option<Handle>, waiters: int, result: Option<Outcome>, index: Option<nat>)

  // ----- the critical sections -----

  /** `set_exception`: whom the caller must resume, and the new state. */
  function Fail(s: Shared, i: nat, error: int): (Option<Handle>, Shared) {
    if s.owner == None then (None, s)
    else
      var s' := s.(result := Some(Error(error)), index := Some(i), waiters := s.waiters - 1);
      (if s'.waiters == 0 then s.owner else None, s')
  }

  /** The locked part of `set_result` when the move succeeds. */
  function Store(s: Shared, i: nat, value: int): (Option<Handle>, Shared) {
    if s.owner == None then (None, s)
    else (s.owner, s.(result := Some(Value(value)), index := Some(i), owner := None))
  }

  /** The locked part of `set_result` when the move throws; true if the exception is then to be reported. */
  function StoreThrows(s: Shared): (bool, Shared) {
    if s.owner == None then (false, s) else (true, s.(result := None))
  }

  /** The outcomes put in so far: exceptions, and at the end the value that made the owner go, if one did. */
  ghost predicate Ordered(log: seq<(nat, Outcome)>, owner: Option<Handle>) {
    && (forall k :: 0 <= k < |log| - (if owner == None then 1 else 0) ==> log[k].1.Error?)
    && (owner == None ==> log != [] && log[|log| - 1].1.Value?)
  }

  ghost predicate IsLast(log: seq<(nat, Outcome)>, result: Option<Outcome>, index: Option<nat>) {
    log != [] && result == Some(log[|log| - 1].1) && index == Some(log[|log| - 1].0)
  }

  /** The state as an object, for children that report one after the other. */
  class WhenAnyState {
    var result: Option<Outcome>
    var index: Option<nat>
    var countWaiters: int
    var owner: Option<Handle>
    ghost const children: nat
    ghost const handle: Handle
    ghost var log: seq<(nat, Outcome)>

    function Contents(): Shared
      reads this
    {
      Shared(owner, countWaiters, result, index)
    }

    /** The children that have put in no outcome are counted until a value is put in. */
    ghost predicate Counted()
      reads this
    {
      && (owner == None || owner == Some(handle))
      && (owner.Some? ==> countWaiters == children - |log|)
      && Ordered(log, owner)
    }

    /** The state holds the last outcome put in. */
    ghost predicate Valid()
      reads this
    {
      Counted() && (log != [] ==> IsLast(log, result, index))
    }

    constructor (countWaiters: nat, owner: Handle)
      ensures Valid() && log == [] && children == countWaiters && handle == owner
      ensures Contents() == Shared(Some(owner), countWaiters, None, None)
    {
      this.result, this.index, this.countWaiters, this.owner := None, None, countWaiters, Some(owner);
      this.children, this.handle, this.log := countWaiters, owner, [];
    }

    /** Puts the exception in unless a value is in, also after a move that threw has taken the last outcome
        out; the owner goes to the child that is the last of all. */
    method SetException(i: nat, error: int) returns (resume: Option<Handle>)
      requires Counted() && (owner == None ==> Valid())
      modifies this
      ensures Valid() && owner == old(owner)
      ensures log == old(log) + if owner == None then [] else [(i, Error(error))]
      ensures resume == if owner.Some? && |log| == children then Some(handle) else None
      ensures (resume, Contents()) == Fail(old(Contents()), i, error)
    {
      if owner == None {
        return None;
      }
      result := Some(Error(error));
      index := Some(i);
      countWaiters := countWaiters - 1;
      log := log + [(i, Error(error))];
      return if countWaiters == 0 then owner else None;
    }

    /** Puts the value in unless one is in; the owner goes to the child whose value it is, once. A value whose
        move throws counts as an exception. */
    method SetResult(i: nat, child: Child) returns (resume: Option<Handle>)
      requires Valid() && !child.Fails?
      modifies this
      ensures Valid() && (owner == None <==> old(owner) == None || child.Returns?)
      ensures log == old(log) + if old(owner) == None then [] else
                      match child
                      case Returns(value) => [(i, Value(value))]
                      case Fails(error) => [(i, Error(error))]
                      case Thrower(error) => [(i, Error(error))]
      ensures resume == if old(owner).Some? && (child.Returns? || |log| == children) then Some(handle) else None
      ensures child.Returns? ==> (resume, Contents()) == Store(old(Contents()), i, child.value)
    {
      if owner == None {
        return None;
      }
      if child.Thrower? {
        result := None;
        resume := SetException(i, child.error);
        return;
      }
      result := Some(Value(child.value));
      index := Some(i);
      log := log + [(i, Value(child.value))];
      resume := owner;
      owner := None;
    }
  }

  // ----- the protocol -----

  datatype Pc =
    | Start
    | Waiting                // for the child
    | Reporting              // holds the shared state
    | Retrying               // the move threw and the lock was given up
    | Resuming(handle: Handle)
    | Done

  /** `log` are the outcomes put into the state, `answer` what the owner returned. */
  datatype State = State(shared: Shared, children: seq<Child>, pcs: seq<Pc>,
                         resumed: seq<Handle>, log: seq<(nat, Outcome)>, answer: Option<(Option<Outcome>, Option<nat>)>)

  /** Child `i` makes its next step, or the owner, once resumed, returns and drops the state. */
  datatype Move = Step(i: nat) | Return

  predicate Holds(pc: Pc) {
    pc.Reporting? || pc.Retrying? || pc.Resuming?
  }

  /** The weak pointer has expired: the owner has dropped the state and no child holds it. */
  ghost predicate Expired(s: State) {
    s.answer.Some? && forall i :: 0 <= i < |s.pcs| ==> !Holds(s.pcs[i])
  }

  ghost predicate Allowed(s: State, move: Move) {
    match move
    case Step(i) => i < |s.pcs| == |s.children| && s.pcs[i] != Done
    case Return => s.resumed != [] && s.answer == None
  }

  ghost function Next(s: State, move: Move): State
    requires Allowed(s, move)
  {
    match move
    case Return => s.(answer := Some((s.shared.result, s.shared.index)))
    case Step(i) =>
      match s.pcs[i]
      case Start => Goto(s, i, if Expired(s) then Done else Waiting)
      case Waiting => Goto(s, i, if Expired(s) then Done else Reporting)
      case Reporting =>
        (match s.children[i]
         case Returns(value) => Report(s, i, Store(s.shared, i, value), Value(value))
         case Fails(error) => Report(s, i, Fail(s.shared, i, error), Error(error))
         case Thrower(_) =>
           var (again, shared) := StoreThrows(s.shared);
           Goto(s.(shared := shared), i, if again then Retrying else Done))
      case Retrying => Report(s, i, Fail(s.shared, i, ErrorOf(s.children[i])), Error(ErrorOf(s.children[i])))
      case Resuming(handle) => Goto(s.(resumed := s.resumed + [handle]), i, Done)
      case Done => s
  }

  function ErrorOf(child: Child): int {
    if child.Returns? then 0 else child.error
  }

  function Goto(s: State, i: nat, pc: Pc): State
    requires i < |s.pcs|
  {
    s.(pcs := s.pcs[i := pc])
  }

  /** A critical section that either found the owner gone or put the outcome in. */
  function Report(s: State, i: nat, report: (Option<Handle>, Shared), outcome: Outcome): State
    requires i < |s.pcs|
  {
    Goto(s.(shared := report.1, log := if s.shared.owner == None then s.log else s.log + [(i, outcome)]),
         i, if report.0.Some? then Resuming(report.0.value) else Done)
  }

  // ----- the invariant -----

  /** The children that have not reported, and those that resume the owner. */
  function Pending(pcs: seq<Pc>): nat {
    Sums.Sum(pcs, PendingOne)
  }

  function Resumers(pcs: seq<Pc>): nat {
    Sums.Sum(pcs, ResumerOne)
  }

  predicate IsPending(pc: Pc) {
    !pc.Resuming? && !pc.Done?
  }

  function PendingOne(pc: Pc): nat {
    if IsPending(pc) then 1 else 0
  }

  function ResumerOne(pc: Pc): nat {
    if pc.Resuming? then 1 else 0
  }

  /** Somebody has to resume the owner, or has done so. */
  predicate Decided(shared: Shared) {
    shared.owner == None || shared.waiters == 0
  }

  ghost predicate Inv(s: State, owner: Handle) {
    && |s.pcs| == |s.children| > 0
    && (s.shared.owner == None || s.shared.owner == Some(owner))
    && (s.shared.owner.Some? ==> s.shared.waiters == Pending(s.pcs))
    && |s.resumed| + Resumers(s.pcs) == (if Decided(s.shared) then 1 else 0)
    && (forall handle :: handle in s.resumed ==> handle == owner)
    && (forall i :: 0 <= i < |s.pcs| ==> PcInv(s, s.pcs[i], s.children[i], owner))
    && LogInv(s)
    && (s.answer.Some? ==> s.resumed != [] && s.answer.value == (s.shared.result, s.shared.index))
  }

  predicate PcInv(s: State, pc: Pc, child: Child, owner: Handle) {
    && (pc.Resuming? ==> pc.handle == owner)
    && (pc.Retrying? ==> child.Thrower?)
  }

  /** All that was put in are exceptions, but for the one value that ended it; unless a move has just thrown,
      or nothing was put in yet, the state holds what was put in last. */
  ghost predicate LogInv(s: State) {
    && (forall k :: 0 <= k < |s.log| ==> Reported(s, s.log[k]))
    && Ordered(s.log, s.shared.owner)
    && (s.shared.owner.Some? ==> forall i :: 0 <= i < |s.pcs| && !IsPending(s.pcs[i]) ==> InLog(s.log, i))
    && (Decided(s.shared) ==> IsLast(s.log, s.shared.result, s.shared.index))
  }

  ghost predicate InLog(log: seq<(nat, Outcome)>, i: nat) {
    exists k :: 0 <= k < |log| && log[k].0 == i
  }

  predicate Reported(s: State, entry: (nat, Outcome)) {
    && entry.0 < |s.children|
    && match s.children[entry.0]
       case Returns(value) => entry.1 == Value(value)
       case Fails(error) => entry.1 == Error(error)
       case Thrower(error) => entry.1 == Error(error)
  }

  lemma Counts(pcs: seq<Pc>, i: nat, pc: Pc)
    requires i < |pcs|
    ensures Pending(pcs[i := pc]) + PendingOne(pcs[i]) == Pending(pcs) + PendingOne(pc)
    ensures Resumers(pcs[i := pc]) + ResumerOne(pcs[i]) == Resumers(pcs) + ResumerOne(pc)
    ensures PendingOne(pcs[i]) <= Pending(pcs) && ResumerOne(pcs[i]) <= Resumers(pcs)
  {
    Sums.Update(pcs, PendingOne, i, pc);
    Sums.Update(pcs, ResumerOne, i, pc);
  }

  lemma LogGrows(s: State, entry: (nat, Outcome))
    ensures forall i: nat :: InLog(s.log, i) ==> InLog(s.log + [entry], i)
    ensures InLog(s.log + [entry], entry.0)
  {
    var log := s.log + [entry];
    assert log[|s.log|] == entry;
    forall i: nat | InLog(s.log, i)
      ensures InLog(log, i)
    {
      var k :| 0 <= k < |s.log| && s.log[k].0 == i;
      assert log[k] == s.log[k];
    }
  }

  /** A step that puts no outcome in, though a move that throws may take the last one out. */
  lemma GotoKeepsInv(s: State, i: nat, pc: Pc, result: Option<Outcome>, owner: Handle)
    requires Inv(s, owner) && i < |s.pcs| && !s.pcs[i].Resuming? && !pc.Resuming? && s.pcs[i] != Done
    requires pc == Done ==> s.shared.owner == None
    requires pc == Retrying ==> s.children[i].Thrower?
    requires result != s.shared.result ==> s.shared.owner.Some?
    ensures Inv(Goto(s.(shared := s.shared.(result := result)), i, pc), owner)
  {
    Counts(s.pcs, i, pc);
    var s' := Goto(s.(shared := s.shared.(result := result)), i, pc);
    assert forall k :: 0 <= k < |s.log| ==> Reported(s, s.log[k]) ==> Reported(s', s'.log[k]);
  }

  lemma ReportKeepsInv(s: State, i: nat, report: (Option<Handle>, Shared), outcome: Outcome, owner: Handle)
    requires Inv(s, owner) && i < |s.pcs| && (s.pcs[i].Reporting? || s.pcs[i].Retrying?) && Reported(s, (i, outcome))
    requires match outcome
             case Value(value) => report == Store(s.shared, i, value)
             case Error(error) => report == Fail(s.shared, i, error)
    ensures Inv(Report(s, i, report, outcome), owner)
  {
    var pc := if report.0.Some? then Resuming(report.0.value) else Done;
    Counts(s.pcs, i, pc);
    var s' := Report(s, i, report, outcome);
    LogGrows(s, (i, outcome));
    assert forall k :: 0 <= k < |s.log| ==> Reported(s, s.log[k]) ==> Reported(s', s'.log[k]);
    assert Decided(s.shared) ==> s.shared.owner == None;
  }

  lemma NextKeepsInv(s: State, move: Move, owner: Handle)
    requires Inv(s, owner) && Allowed(s, move)
    ensures Inv(Next(s, move), owner) && Next(s, move).children == s.children
  {
    match move
    case Return => assert Next(s, move).log == s.log;
    case Step(i) =>
      assert PcInv(s, s.pcs[i], s.children[i], owner);
      Counts(s.pcs, i, Done);
      match s.pcs[i]
      case Start => GotoKeepsInv(s, i, if Expired(s) then Done else Waiting, s.shared.result, owner);
      case Waiting => GotoKeepsInv(s, i, if Expired(s) then Done else Reporting, s.shared.result, owner);
      case Reporting =>
        match s.children[i] {
          case Returns(value) => ReportKeepsInv(s, i, Store(s.shared, i, value), Value(value), owner);
          case Fails(error) => ReportKeepsInv(s, i, Fail(s.shared, i, error), Error(error), owner);
          case Thrower(_) =>
            if s.shared.owner == None {
              GotoKeepsInv(s, i, Done, s.shared.result, owner);
            } else {
              GotoKeepsInv(s, i, Retrying, None, owner);
            }
        }
      case Retrying =>
        ReportKeepsInv(s, i, Fail(s.shared, i, ErrorOf(s.children[i])), Error(ErrorOf(s.children[i])), owner);
      case Resuming(handle) => ResumeKeepsInv(s, i, owner);
      case Done =>
  }

  lemma ResumeKeepsInv(s: State, i: nat, owner: Handle)
    requires Inv(s, owner) && i < |s.pcs| && s.pcs[i].Resuming?
    ensures Inv(Goto(s.(resumed := s.resumed + [s.pcs[i].handle]), i, Done), owner)
  {
    Counts(s.pcs, i, Done);
    var s' := Goto(s.(resumed := s.resumed + [s.pcs[i].handle]), i, Done);
    assert PcInv(s, s.pcs[i], s.children[i], owner);
    assert forall k :: 0 <= k < |s.log| ==> Reported(s, s.log[k]) ==> Reported(s', s'.log[k]);
  }

  // ----- what holds over all runs -----

  ghost predicate Initial(s: State, owner: Handle) {
    && s.children != [] && |s.pcs| == |s.children|
    && s.shared == Shared(Some(owner), |s.children|, None, None)
    && s.resumed == [] && s.log == [] && s.answer == None
    && forall i :: 0 <= i < |s.pcs| ==> s.pcs[i] == Start
  }

  ghost predicate Run(states: seq<State>, moves: seq<Move>, owner: Handle) {
    && |states| == |moves| + 1
    && Initial(states[0], owner)
    && forall k :: 0 <= k < |moves| ==> Allowed(states[k], moves[k]) && states[k + 1] == Next(states[k], moves[k])
  }

  lemma {:induction false} RunKeepsInv(states: seq<State>, moves: seq<Move>, owner: Handle, k: nat)
    requires Run(states, moves, owner) && k < |states|
    ensures Inv(states[k], owner) && states[k].children == states[0].children
  {
    if k == 0 {
      Sums.Constant(states[0].pcs, PendingOne, 1);
      Sums.Constant(states[0].pcs, ResumerOne, 0);
    } else {
      RunKeepsInv(states, moves, owner, k - 1);
      NextKeepsInv(states[k - 1], moves[k - 1], owner);
    }
  }

  /** How many steps a child can still make. */
  function StepsOne(pc: Pc): nat {
    match pc
    case Start => 5
    case Waiting => 4
    case Reporting => 3
    case Retrying => 2
    case Resuming(_) => 1
    case Done => 0
  }

  function Steps(s: State): nat {
    Sums.Sum(s.pcs, StepsOne) + if s.answer == None then 1 else 0
  }

  lemma NextDecreases(s: State, move: Move)
    requires Allowed(s, move)
    ensures Steps(Next(s, move)) < Steps(s)
  {
    if move.Step? {
      Sums.Update(s.pcs, StepsOne, move.i, Next(s, move).pcs[move.i]);
    }
  }

  /** No run is longer than five steps for each child and one for the owner, and one that nobody can continue
      has the answer and every child is done. */
  lemma {:induction false} RunEndsWithTheAnswer(states: seq<State>, moves: seq<Move>, owner: Handle)
    requires Run(states, moves, owner)
    ensures |moves| <= 5 * |states[0].children| + 1
    ensures var s := states[|moves|];
            (forall move: Move :: !Allowed(s, move)) ==> s.answer.Some? && forall i :: 0 <= i < |s.pcs| ==> s.pcs[i] == Done
  {
    StepsUpTo(states, moves, owner, |moves|);
    var s := states[|moves|];
    RunKeepsInv(states, moves, owner, |moves|);
    if forall move: Move :: !Allowed(s, move) {
      assert !Allowed(s, Return);
      forall i | 0 <= i < |s.pcs|
        ensures s.pcs[i] == Done
      {
        assert !Allowed(s, Step(i));
      }
      OwnerIsResumedOnce(states, moves, owner, |moves|);
    }
  }

  lemma {:induction false} StepsUpTo(states: seq<State>, moves: seq<Move>, owner: Handle, k: nat)
    requires Run(states, moves, owner) && k < |states|
    ensures Steps(states[k]) + k <= 5 * |states[0].children| + 1
  {
    if k == 0 {
      Sums.Constant(states[0].pcs, StepsOne, 5);
    } else {
      StepsUpTo(states, moves, owner, k - 1);
      NextDecreases(states[k - 1], moves[k - 1]);
    }
  }

  /** The owner, and nobody else, is resumed at most once, and once all children are done exactly once. */
  lemma OwnerIsResumedOnce(states: seq<State>, moves: seq<Move>, owner: Handle, k: nat)
    requires Run(states, moves, owner) && k < |states|
    ensures states[k].resumed == [] || states[k].resumed == [owner]
    ensures (forall i :: 0 <= i < |states[k].pcs| ==> states[k].pcs[i] == Done) ==> states[k].resumed == [owner]
  {
    RunKeepsInv(states, moves, owner, k);
    if forall i :: 0 <= i < |states[k].pcs| ==> states[k].pcs[i] == Done {
      Sums.Constant(states[k].pcs, PendingOne, 0);
      Sums.Constant(states[k].pcs, ResumerOne, 0);
    }
    assert states[k].resumed != [] ==> states[k].resumed[0] in states[k].resumed;
  }

  /** The answer is the first value that was put in, with its child's index; or, when all children reported an
      exception, the last one. */
  lemma AnswerIsFirstValueOrLastError(states: seq<State>, moves: seq<Move>, owner: Handle, k: nat)
    requires Run(states, moves, owner) && k < |states| && states[k].answer.Some?
    ensures var s := states[k];
            && s.log != []
            && var (i, outcome) := s.log[|s.log| - 1];
               && s.answer == Some((Some(outcome), Some(i))) && Reported(s, (i, outcome))
               && (forall l :: 0 <= l < |s.log| - 1 ==> s.log[l].1.Error? && Reported(s, s.log[l]))
               && |s.pcs| == |s.children|
               && (outcome.Error? ==> forall j :: 0 <= j < |s.pcs| ==> !IsPending(s.pcs[j]) && !s.children[j].Returns?)
  {
    RunKeepsInv(states, moves, owner, k);
    var s := states[k];
    if s.shared.owner.Some? {
      forall j | 0 <= j < |s.pcs|
        ensures !IsPending(s.pcs[j]) && !s.children[j].Returns?
      {
        Counts(s.pcs, j, Done);
        assert InLog(s.log, j);
        var l :| 0 <= l < |s.log| && s.log[l].0 == j;
        assert Reported(s, s.log[l]);
      }
    }
  }
}
