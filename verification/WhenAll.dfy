/** `when_all` under every interleaving of its children with the loop that starts them. The counter and the
result slots live in the frame of the owner, which may return and be destroyed as soon as it is resumed. */
module WhenAll {

  import Sums
  import opened Wrappers

  datatype Outcome = Value(value: int) | Error(error: int)

  datatype Pc =
    | NotStarted
    | Running   // the child runs
    | Written   // its slot is written, the counter not yet decremented
    | Last      // it brought the counter to zero and goes on with the owner
    | Done

  datatype Owner = Entry | Suspended | Resumed | Returned(results: seq<Option<Outcome>>)

  /** `next` is the child that the loop starts next; `resumes` counts how often the owner was resumed. */
  datatype State = State(owner: Owner, next: nat, count: int, slots: seq<Option<Outcome>>,
                         pcs: seq<Pc>, outcomes: seq<Outcome>, resumes: nat)

  /** The owner suspends itself or returns; the loop starts a child; child `i` makes its next step. */
  datatype Move = Own | StartNext | Step(i: nat)

  predicate Allowed(s: State, move: Move) {
    match move
    case Own => s.owner == Entry || s.owner == Resumed
    case StartNext => s.owner != Entry && s.next < |s.outcomes|
    case Step(i) => i < |s.pcs| && s.pcs[i] != NotStarted && s.pcs[i] != Done
  }

  /** `None` if the frame of the owner is used after it has returned. */
  function Next(s: State, move: Move): Option<State>
    requires Allowed(s, move)
  {
    match move
    case Own =>
      if s.owner == Resumed then Some(s.(owner := Returned(s.slots)))
      else if s.outcomes == [] then Some(s.(owner := Returned([])))
      else Some(s.(owner := Suspended, count := |s.outcomes|, slots := seq(|s.outcomes|, _ => None)))
    case StartNext =>
      if s.owner.Returned? || s.next >= |s.pcs| then None
      else Some(s.(next := s.next + 1, pcs := s.pcs[s.next := Running]))
    case Step(i) =>
      if s.pcs[i] == Last then Some(s.(owner := Resumed, resumes := s.resumes + 1, pcs := s.pcs[i := Done]))
      else if s.owner.Returned? || i >= |s.slots| || i >= |s.outcomes| then None
      else if s.pcs[i] == Running then Some(s.(slots := s.slots[i := Some(s.outcomes[i])], pcs := s.pcs[i := Written]))
      else Some(s.(count := s.count - 1, pcs := s.pcs[i := if s.count == 1 then Last else Done]))
  }

  // ----- the invariant -----

  /** The children that have not decremented the counter, and those that resume the owner. */
  function Pending(pcs: seq<Pc>): nat {
    Sums.Sum(pcs, PendingOne)
  }

  function Lasts(pcs: seq<Pc>): nat {
    Sums.Sum(pcs, LastOne)
  }

  predicate IsPending(pc: Pc) {
    pc == NotStarted || pc == Running || pc == Written
  }

  function PendingOne(pc: Pc): nat {
    if IsPending(pc) then 1 else 0
  }

  function LastOne(pc: Pc): nat {
    if pc == Last then 1 else 0
  }

  lemma Counts(pcs: seq<Pc>, i: nat, pc: Pc)
    requires i < |pcs|
    ensures Pending(pcs[i := pc]) + PendingOne(pcs[i]) == Pending(pcs) + PendingOne(pc)
    ensures Lasts(pcs[i := pc]) + LastOne(pcs[i]) == Lasts(pcs) + LastOne(pc)
    ensures PendingOne(pcs[i]) <= Pending(pcs) && LastOne(pcs[i]) <= Lasts(pcs)
  {
    Sums.Update(pcs, PendingOne, i, pc);
    Sums.Update(pcs, LastOne, i, pc);
  }

  ghost predicate Inv(s: State) {
    && |s.pcs| == |s.outcomes|
    && (forall i :: 0 <= i < |s.pcs| ==> (s.pcs[i] == NotStarted <==> s.next <= i))
    && (match s.owner
        case Entry => s.resumes == 0 && s.next == 0
        case Suspended => Counted(s) && s.resumes == 0
        case Resumed => Counted(s) && s.resumes == 1
        case Returned(results) =>
          if s.outcomes == [] then results == [] && s.resumes == 0
          else Counted(s) && s.resumes == 1 && results == s.slots)
  }

  /** The owner's frame is set up: the counter counts the children that have not decremented it, exactly one
      resumption is due when it is zero, and the slots of those beyond `Running` are written. */
  ghost predicate Counted(s: State)
    requires |s.pcs| == |s.outcomes|
  {
    && s.outcomes != [] && |s.slots| == |s.outcomes|
    && s.count == Pending(s.pcs)
    && s.resumes + Lasts(s.pcs) == (if s.count == 0 then 1 else 0)
    && (s.resumes == 0 ==> s.owner == Suspended)
    && forall i :: 0 <= i < |s.pcs| && s.pcs[i] != NotStarted && s.pcs[i] != Running ==> s.slots[i] == Some(s.outcomes[i])
  }

  /** While the loop has a child left to start, or a child uses its slot or the counter, the owner has not been
      resumed and its frame is there. */
  lemma StepIsSafe(s: State, move: Move)
    requires Inv(s) && Allowed(s, move)
    ensures Next(s, move).Some?
    ensures move == StartNext || (move.Step? && IsPending(s.pcs[move.i])) ==> s.owner == Suspended && s.count > 0
  {
    match move
    case Own =>
    case StartNext => Counts(s.pcs, s.next, Running);
    case Step(i) => Counts(s.pcs, i, Done);
  }

  lemma NextKeepsInv(s: State, move: Move, s': State)
    requires Inv(s) && Allowed(s, move) && Next(s, move) == Some(s')
    ensures Inv(s') && s'.outcomes == s.outcomes
  {
    StepIsSafe(s, move);
    match move
    case Own =>
      if s.owner == Entry {
        Sums.Constant(s.pcs, PendingOne, 1);
        Sums.Constant(s.pcs, LastOne, 0);
      }
    case StartNext => Counts(s.pcs, s.next, Running);
    case Step(i) => Counts(s.pcs, i, s'.pcs[i]);
  }

  // ----- what holds over all runs -----

  ghost predicate Initial(s: State) {
    && s.owner == Entry && s.next == 0 && s.resumes == 0 && |s.pcs| == |s.outcomes|
    && forall i :: 0 <= i < |s.pcs| ==> s.pcs[i] == NotStarted
  }

  ghost predicate Run(states: seq<State>, moves: seq<Move>) {
    && |states| == |moves| + 1
    && Initial(states[0])
    && forall k :: 0 <= k < |moves| ==> Allowed(states[k], moves[k]) && Next(states[k], moves[k]) == Some(states[k + 1])
  }

  lemma {:induction false} RunKeepsInv(states: seq<State>, moves: seq<Move>, k: nat)
    requires Run(states, moves) && k < |states|
    ensures Inv(states[k]) && states[k].outcomes == states[0].outcomes
  {
    if k > 0 {
      RunKeepsInv(states, moves, k - 1);
      NextKeepsInv(states[k - 1], moves[k - 1], states[k]);
    }
  }

  /** No run uses the owner's frame after the owner has returned. */
  lemma FrameIsAlive(states: seq<State>, moves: seq<Move>, k: nat, move: Move)
    requires Run(states, moves) && k < |states| && Allowed(states[k], move)
    ensures Next(states[k], move).Some?
  {
    RunKeepsInv(states, moves, k);
    StepIsSafe(states[k], move);
  }

  /** The owner is resumed at most once, when every child has written its outcome, and exactly once when all
      children are done; with no children it returns by itself. */
  lemma OwnerIsResumedOnce(states: seq<State>, moves: seq<Move>, k: nat)
    requires Run(states, moves) && k < |states|
    ensures states[k].resumes <= 1
    ensures states[k].resumes == 1 ==> states[k].count == 0 && |states[k].pcs| == |states[k].outcomes| == |states[k].slots|
    ensures states[k].resumes == 1 ==> forall i :: 0 <= i < |states[k].pcs| ==>
              states[k].pcs[i] == Done && states[k].slots[i] == Some(states[k].outcomes[i])
    ensures states[k].outcomes != [] && (forall i :: 0 <= i < |states[k].pcs| ==> states[k].pcs[i] == Done) ==>
              states[k].resumes == 1
  {
    RunKeepsInv(states, moves, k);
    var s := states[k];
    if s.resumes == 1 {
      forall i | 0 <= i < |s.pcs|
        ensures s.pcs[i] == Done
      {
        Counts(s.pcs, i, Done);
      }
    }
    if forall i :: 0 <= i < |s.pcs| ==> s.pcs[i] == Done {
      Sums.Constant(s.pcs, PendingOne, 0);
      Sums.Constant(s.pcs, LastOne, 0);
    }
  }

  /** How many steps a child can still make. */
  function StepsOne(pc: Pc): nat {
    match pc
    case NotStarted => 4
    case Running => 3
    case Written => 2
    case Last => 1
    case Done => 0
  }

  function Steps(s: State): nat {
    Sums.Sum(s.pcs, StepsOne) + if s.owner.Entry? then 2 else if s.owner.Returned? then 0 else 1
  }

  lemma NextDecreases(s: State, move: Move, s': State)
    requires Inv(s) && Allowed(s, move) && Next(s, move) == Some(s')
    ensures Steps(s') < Steps(s)
  {
    StepIsSafe(s, move);
    match move
    case Own =>
    case StartNext => Sums.Update(s.pcs, StepsOne, s.next, Running);
    case Step(i) =>
      Counts(s.pcs, i, Done);
      Sums.Update(s.pcs, StepsOne, i, s'.pcs[i]);
  }

  lemma {:induction false} StepsUpTo(states: seq<State>, moves: seq<Move>, k: nat)
    requires Run(states, moves) && k < |states|
    ensures Steps(states[k]) + k <= 4 * |states[0].outcomes| + 2
  {
    if k == 0 {
      Sums.Constant(states[0].pcs, StepsOne, 4);
    } else {
      StepsUpTo(states, moves, k - 1);
      RunKeepsInv(states, moves, k - 1);
      NextDecreases(states[k - 1], moves[k - 1], states[k]);
    }
  }

  /** No run is longer than four steps for each child and two for the owner, and in one that nobody can continue
      the owner has returned and every child is done. */
  lemma RunEndsWithTheResults(states: seq<State>, moves: seq<Move>)
    requires Run(states, moves)
    ensures |moves| <= 4 * |states[0].outcomes| + 2
    ensures var s := states[|moves|];
            (forall move: Move :: !Allowed(s, move)) ==>
              s.owner.Returned? && forall i :: 0 <= i < |s.pcs| ==> s.pcs[i] == Done
  {
    StepsUpTo(states, moves, |moves|);
    var s := states[|moves|];
    RunKeepsInv(states, moves, |moves|);
    if forall move: Move :: !Allowed(s, move) {
      assert !Allowed(s, Own) && !Allowed(s, StartNext);
      forall i | 0 <= i < |s.pcs|
        ensures s.pcs[i] == Done
      {
        assert !Allowed(s, Step(i));
      }
      OwnerIsResumedOnce(states, moves, |moves|);
    }
  }

  /** The owner returns the outcome of child `i` in slot `i`, for every child. */
  lemma ResultsAreTheOutcomes(states: seq<State>, moves: seq<Move>, k: nat)
    requires Run(states, moves) && k < |states| && states[k].owner.Returned?
    ensures var s := states[k];
            && |s.owner.results| == |s.outcomes|
            && forall i :: 0 <= i < |s.outcomes| ==> s.owner.results[i] == Some(s.outcomes[i])
  {
    RunKeepsInv(states, moves, k);
    if states[k].outcomes != [] {
      OwnerIsResumedOnce(states, moves, k);
    }
  }
}
