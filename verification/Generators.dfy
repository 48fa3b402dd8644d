/** Recursive generators: their promises, the splice, and the iterator that drives them.

Resuming a frame and the symmetric transfers that follow are the loop of `Generator.Resume`. */
module Generators {
  import opened Frames
  import opened Scripts
  import opened Wrappers

  /** How one `resume()` came back to the consumer. */
  datatype Outcome = Suspended | Thrown(error: int)

  method SetResult(frame: Promise<Generator>, result: Option<int>)
    requires frame.root.link.Consumer?
    modifies frame.root.link.consumer`currentResult
    ensures frame.root.link.consumer.currentResult == result
  {
    frame.root.link.consumer.currentResult := result;
  }

  /** The final awaiter: the frame to transfer control to, null for the consumer. */
  method FinalSuspend(frame: Promise<Generator>) returns (next: Promise?<Generator>)
    requires if frame.root != frame then frame.link.Owner? && frame.link.promise != frame else frame.link.Consumer?
    modifies (if frame.root != frame then {frame.link.promise} else {})`root
    modifies (if frame.root != frame then {frame.root} else {})`currentWorker
    modifies (if frame.root != frame then {} else {frame.link.consumer})`currentResult
    ensures if frame.root != frame
            then next == frame.link.promise && next.root == frame.root && frame.root.currentWorker == next
            else next == null && frame.link.consumer.currentResult == None
  {
    if frame.root != frame {
      frame.SkipThisLeaf();
      return frame.link.promise;
    }
    SetResult(frame, None);
    return null;
  }

  /** Leaves the frame at its final suspend point and hands the exception to whoever resumed it. */
  method UnhandledException(frame: Promise<Generator>)
    requires if frame.root != frame
             then frame.link.Owner? && frame.link.promise != frame && frame.root.link.Consumer?
             else frame.link.Consumer?
    modifies (if frame.root != frame then {frame.link.promise} else {})`root
    modifies (if frame.root != frame then {frame.root} else {})`currentWorker
    modifies frame.root.link.consumer`currentResult
    ensures frame.root.link.consumer.currentResult == None
    ensures frame.root != frame ==> frame.link.promise.root == frame.root && frame.root.currentWorker == frame.link.promise
  {
    if frame.root != frame {
      frame.SkipThisLeaf();
    }
    SetResult(frame, None);
  }

  /** The event the consumer has in its hands after an advance. */
  ghost function Shown(outcome: Outcome, result: Option<int>): seq<Event> {
    match outcome
    case Thrown(e) => [Error(e)]
    case Suspended => if result.Some? then [Value(result.value)] else []
  }

  class Generator {
    var currentResult: Option<int>
    var top: Promise?<Generator>
    ghost var chain: seq<Promise<Generator>>  // frames from the root to the active one
    ghost var bodies: seq<Body>    // what each of them has left

    ghost predicate Valid()
      reads this, top, chain
    {
      && Stacked(top, chain, bodies)
      && Owned(chain)
      && (chain == [] ==> currentResult == None)
      && (chain != [] ==> chain[0].link == Consumer(this))
    }

    /** What holds in every state between two calls: the active frame knows its root, which knows its
        consumer, and the chain of owners from it ends at that root without a cycle. */
    lemma ActiveFrameFindsConsumer()
      requires Valid() && top != null && !top.done
      ensures !top.currentWorker.done && top.currentWorker.root == top
      ensures Walk(top.currentWorker, |chain| - 1) == top && top.link == Consumer(this)
      ensures forall i, j :: 0 <= i < j < |chain| ==> chain[i] != chain[j]
    {
      ActiveFrameFindsRoot(top, chain, bodies);
    }

    /** The elements this generator still has to give. */
    ghost function Rest(): seq<Event>
      reads `bodies
    {
      FlatChain(bodies)
    }

    ghost function WorkLeft(): nat
      reads `bodies
    {
      ChainWork(bodies)
    }

    constructor ()
      ensures Valid() && top == null && Rest() == []
    {
      currentResult, top, chain, bodies := None, null, [], [];
    }

    /** Calls a coroutine: a frame suspended before its body. */
    constructor Start(body: Body)
      ensures Valid() && top != null && fresh(top) && chain == [top] && !top.done
      ensures Rest() == Flat(body) && WorkLeft() == Work(body)
    {
      var frame := new Promise<Generator>(body);
      currentResult, top := None, frame;
      new;
      frame.link := Consumer(this);
      chain, bodies := [frame], [body];
      ChainLast([body]);
    }

    predicate Empty()
      reads this, top
    {
      top == null || top.done
    }

    /** What the consumer gets to see for the first element of `rest`, or when there is none. */
    ghost predicate Shows(rest: seq<Event>, outcome: Outcome)
      reads this, chain
    {
      if rest == [] then
        outcome == Suspended && currentResult == None && chain == []
      else
        && Rest() == rest[1..]
        && match rest[0]
           case Value(v) => outcome == Suspended && currentResult == Some(v) && chain != []
           case Error(e) => outcome == Thrown(e) && currentResult == None
    }

    /** What the advance shows comes first in `rest`; without a value the loop is over. */
    ghost predicate Showing(rest: seq<Event>, outcome: Outcome)
      reads this, top, chain
    {
      && Valid()
      && rest == Shown(outcome, currentResult) + Rest()
      && (outcome == Suspended ==> (currentResult == None <==> chain == []))
    }

    lemma ShownFirst(rest: seq<Event>, outcome: Outcome)
      requires Valid() && Shows(rest, outcome)
      ensures Showing(rest, outcome)
    {
      if rest != [] {
        assert rest == [rest[0]] + rest[1..];
      }
    }

    // ----- what one frame does when it is active -----

    /** The active frame suspends for the last time: control goes to its owner, or to the consumer. */
    method Finish(worker: Promise<Generator>) returns (next: Promise?<Generator>)
      requires Valid() && chain != [] && worker == chain[|chain| - 1]
      modifies this, chain
      ensures Valid() && top == old(top) && chain == old(chain)[..|old(chain)| - 1]
      ensures bodies == old(bodies)[..|chain|]
      ensures if chain == [] then next == null else next == chain[|chain| - 1]
    {
      ActiveFrameOnce(chain);
      assert worker.root == top && top.link == Consumer(this);
      assert |chain| > 1 ==> worker.link == Owner(chain[|chain| - 2]) && worker != top;
      worker.done := true;
      next := FinalSuspend(worker);
      chain, bodies := chain[..|chain| - 1], bodies[..|chain| - 1];
      assert Owned(chain);
    }

    /** The active frame throws: only what it had left is lost. */
    method Fail(worker: Promise<Generator>)
      requires Valid() && chain != [] && worker == chain[|chain| - 1]
      modifies this, chain
      ensures Valid() && top == old(top) && chain == old(chain)[..|old(chain)| - 1]
      ensures bodies == old(bodies)[..|chain|]
      ensures currentResult == None
    {
      ActiveFrameOnce(chain);
      assert worker.root == top && top.link == Consumer(this);
      assert |chain| > 1 ==> worker.link == Owner(chain[|chain| - 2]) && worker != top;
      worker.done := true;
      UnhandledException(worker);
      chain, bodies := chain[..|chain| - 1], bodies[..|chain| - 1];
      assert Owned(chain);
    }

    /** The active frame moves past its first action. */
    method Advance(worker: Promise<Generator>)
      requires Valid() && chain != [] && worker == chain[|chain| - 1] && worker.body != []
      modifies worker`body, `bodies
      ensures Valid() && worker.body == old(worker.body)[1..]
      ensures bodies == old(bodies)[..|chain| - 1] + [worker.body]
    {
      ActiveFrameOnce(chain);
      worker.body := worker.body[1..];
      bodies := bodies[..|chain| - 1] + [worker.body];
    }

    /** The active frame yields all of `leaf`, which has not finished yet. */
    method Splice(worker: Promise<Generator>, leaf: Generator) returns (next: Promise<Generator>)
      requires Valid() && chain != [] && worker == chain[|chain| - 1]
      requires leaf != this && leaf.Valid() && leaf.chain != []
      modifies this`chain, this`bodies, chain, leaf.chain
      ensures Valid() && top == old(top) && chain == old(chain) + old(leaf.chain)
      ensures bodies == old(bodies) + old(leaf.bodies)
      ensures next == chain[|chain| - 1]
    {
      next := Frames.Splice(top, chain, bodies, worker, leaf.top, leaf.chain, leaf.bodies);
      chain, bodies := chain + leaf.chain, bodies + leaf.bodies;
    }

    // ----- resuming -----

    /** Awaiting the leaf: one that is already finished does not suspend the frame. */
    method AwaitLeaf(worker: Promise<Generator>, leaf: Generator) returns (next: Promise<Generator>)
      requires Valid() && chain != [] && worker == chain[|chain| - 1]
      requires leaf != this && leaf.Valid()
      modifies this`chain, this`bodies, chain, leaf.chain
      ensures Valid() && top == old(top) && chain == old(chain) + old(leaf.chain)
      ensures bodies == old(bodies) + old(leaf.bodies)
      ensures next == chain[|chain| - 1]
    {
      next := worker;
      if !leaf.Empty() {
        next := Splice(worker, leaf);
      }
    }

    /** The frame moves past the `co_yield` and awaits the leaf. */
    method PassAndAwait(worker: Promise<Generator>, leaf: Generator) returns (next: Promise<Generator>)
      requires Valid() && chain != [] && worker == chain[|chain| - 1] && worker.body != []
      requires leaf.Valid() && this != leaf && worker !in leaf.chain
      modifies this`chain, this`bodies, chain, leaf.chain
      ensures Valid() && top == old(top) && chain == old(chain) + old(leaf.chain)
      ensures bodies == old(bodies)[..|old(chain)| - 1] + [old(worker.body)[1..]] + old(leaf.bodies)
      ensures next == chain[|chain| - 1]
    {
      Advance(worker);
      next := AwaitLeaf(worker, leaf);
    }

    /** `co_yield elements_of(..)`. */
    method RunElementsOf(worker: Promise<Generator>) returns (next: Promise<Generator>)
      requires Valid() && chain != [] && worker == chain[|chain| - 1]
      requires worker.body != [] && worker.body[0].ElementsOf?
      modifies this`chain, this`bodies, chain
      ensures Valid() && top == old(top)
      ensures old(chain) <= chain && forall i :: |old(chain)| <= i < |chain| ==> fresh(chain[i])
      ensures WorkLeft() < old(WorkLeft()) && Rest() == old(Rest())
      ensures chain != [] && next == chain[|chain| - 1]
      decreases WorkLeft(), 0
    {
      ghost var before, body := bodies, worker.body;
      assert before[|before| - 1] == body;
      OperandIsSmaller(before);
      var leaf := Make(worker.body[0].leaf);
      ghost var operand := leaf.bodies;
      assert Valid() && worker !in leaf.chain;
      next := PassAndAwait(worker, leaf);
      assert bodies == before[..|before| - 1] + [body[1..]] + operand;
      ElementsOfInBody(before, operand, bodies);
    }

    /** `co_yield value`. */
    method RunYield(worker: Promise<Generator>)
      requires Valid() && chain != [] && worker == chain[|chain| - 1]
      requires worker.body != [] && worker.body[0].Yield?
      modifies `currentResult, `bodies, worker`body
      ensures Valid() && WorkLeft() < old(WorkLeft()) && Shows(old(Rest()), Suspended)
    {
      var value := worker.body[0].value;
      Advance(worker);
      YieldInBody(old(bodies), bodies);
      SetResult(worker, Some(value));
    }

    /** An exception leaves the active frame. */
    method RunThrow(worker: Promise<Generator>) returns (outcome: Outcome)
      requires Valid() && chain != [] && worker == chain[|chain| - 1]
      requires worker.body != [] && worker.body[0].Throw?
      modifies this, chain
      ensures Valid() && top == old(top) && chain == old(chain)[..|old(chain)| - 1]
      ensures WorkLeft() < old(WorkLeft()) && Shows(old(Rest()), outcome)
    {
      ThrowInBody(bodies);
      outcome := Thrown(worker.body[0].error);
      Fail(worker);
    }

    /** Runs the active frame up to its next suspension: control goes to the frame `next`, or back to
        the consumer when that is null. */
    method RunWorker(worker: Promise<Generator>) returns (next: Promise?<Generator>, outcome: Outcome)
      requires Valid() && chain != [] && worker == chain[|chain| - 1]
      modifies this, chain
      ensures Valid() && top == old(top)
      ensures forall i :: 0 <= i < |chain| ==> (i < |old(chain)| && chain[i] == old(chain)[i]) || fresh(chain[i])
      ensures WorkLeft() < old(WorkLeft())
      ensures if next == null then Shows(old(Rest()), outcome)
              else Rest() == old(Rest()) && chain != [] && next == chain[|chain| - 1]
      decreases WorkLeft(), 1
    {
      outcome, next := Suspended, null;
      if worker.body == [] {
        EndOfBody(bodies);
        next := Finish(worker);
      } else if worker.body[0].Throw? {
        outcome := RunThrow(worker);
      } else if worker.body[0].Yield? {
        RunYield(worker);
      } else {
        next := RunElementsOf(worker);
      }
    }

    /** `current_worker.resume()`: follows the control transfers until one leads to the consumer. */
    method Resume() returns (outcome: Outcome)
      requires Valid() && chain != []
      modifies this, chain
      ensures Valid() && top == old(top)
      ensures forall i :: 0 <= i < |chain| ==> (i < |old(chain)| && chain[i] == old(chain)[i]) || fresh(chain[i])
      ensures WorkLeft() < old(WorkLeft())
      ensures Shows(old(Rest()), outcome)
      decreases WorkLeft(), 2
    {
      outcome := Suspended;
      var worker: Promise?<Generator> := top.currentWorker;
      while worker != null
        invariant Valid() && top == old(top)
        invariant forall i :: 0 <= i < |chain| ==> (i < |old(chain)| && chain[i] == old(chain)[i]) || fresh(chain[i])
        invariant WorkLeft() <= old(WorkLeft())
        invariant if worker == null then Shows(old(Rest()), outcome) && WorkLeft() < old(WorkLeft())
                  else Rest() == old(Rest()) && chain != [] && worker == chain[|chain| - 1]
        decreases worker != null, WorkLeft()
      {
        worker, outcome := RunWorker(worker);
      }
    }

    /** `begin()`: asks for the next element unless there is no frame left to ask. */
    method Begin() returns (outcome: Outcome)
      requires Valid()
      modifies this, chain
      ensures Valid() && top == old(top)
      ensures forall i :: 0 <= i < |chain| ==> (i < |old(chain)| && chain[i] == old(chain)[i]) || fresh(chain[i])
      ensures WorkLeft() <= old(WorkLeft())
      ensures old(chain) != [] ==> WorkLeft() < old(WorkLeft())
      ensures Shows(old(Rest()), outcome)
      decreases WorkLeft(), 3
    {
      outcome := Suspended;
      if !Empty() {
        outcome := Resume();
      }
    }

    /** The root learns its consumer. */
    method PrepareToStart()
      requires top != null ==> Stacked(top, chain, bodies) && Owned(chain)
      requires |chain| > 1 ==> top !in chain[1..]
      modifies top
      ensures top != null ==> top.link == Consumer(this) && Stacked(top, chain, bodies) && Owned(chain)
      ensures top != null ==> top.done == old(top.done)
    {
      if top != null {
        top.link := Consumer(this);
      }
    }

    method SwapFields(other: Generator)
      modifies this, other
      ensures top == old(other.top) && chain == old(other.chain) && bodies == old(other.bodies)
      ensures other.top == old(top) && other.chain == old(chain) && other.bodies == old(bodies)
      ensures currentResult == old(other.currentResult) && other.currentResult == old(currentResult)
    {
      currentResult, other.currentResult := other.currentResult, currentResult;
      top, other.top := other.top, top;
      chain, other.chain := other.chain, chain;
      bodies, other.bodies := other.bodies, bodies;
    }

    /** Both generators take over each other's frames. */
    method Swap(other: Generator)
      requires Valid() && other.Valid()
      requires other != this ==> top == null || top != other.top
      modifies this, other, top, other.top
      ensures Valid() && other.Valid()
      ensures top == old(other.top) && chain == old(other.chain) && bodies == old(other.bodies)
      ensures other.top == old(top) && other.chain == old(chain) && other.bodies == old(bodies)
      ensures currentResult == old(other.currentResult) && other.currentResult == old(currentResult)
    {
      NotOwned(this, top);
      NotOwned(this, other.top);
      NotOwned(other, top);
      NotOwned(other, other.top);
      SwapFields(other);
      PrepareToStart();
      other.PrepareToStart();
    }
  }

  /** A frame behind the root of `generator` is nobody's root. */
  lemma NotOwned(generator: Generator, root: Promise?<Generator>)
    requires generator.Valid() && (root == null || root.done || root.link.Consumer?)
    ensures |generator.chain| > 1 ==> root !in generator.chain[1..]
  {
  }

  /** A range that the coroutine holds, advanced as often as `leaf` says. */
  method Hold(leaf: Leaf) returns (held: Generator)
    requires leaf.Iterated?
    ensures fresh(held) && held.Valid() && fresh(held.chain)
    ensures held.top != null && fresh(held.top)
    ensures held.Rest() == if leaf.pulls < |Flat(leaf.body)| then Flat(leaf.body)[leaf.pulls..] else []
    ensures held.WorkLeft() <= LeafWork(leaf)
    decreases LeafWork(leaf), 4
  {
    held := new Generator.Start(leaf.body);
    for i := 0 to leaf.pulls
      invariant fresh(held) && held.Valid()
      invariant forall j :: 0 <= j < |held.chain| ==> fresh(held.chain[j])
      invariant held.top != null && fresh(held.top)
      invariant held.Rest() == if i < |Flat(leaf.body)| then Flat(leaf.body)[i..] else []
      invariant held.WorkLeft() <= LeafWork(leaf)
    {
      var _ := held.Begin();
    }
  }

  /** Evaluates the operand of `elements_of`: the range held by the coroutine, advanced as often as it
      was before, is moved into the awaiter. */
  method Make(leaf: Leaf) returns (generator: Generator)
    ensures fresh(generator) && generator.Valid() && fresh(generator.chain)
    ensures generator.Rest() == FlatLeaf(leaf)
    ensures leaf.NoFrame? ==> generator.Rest() == []
    ensures leaf.Iterated? ==>
      generator.Rest() == if leaf.pulls < |Flat(leaf.body)| then Flat(leaf.body)[leaf.pulls..] else []
    ensures generator.WorkLeft() <= LeafWork(leaf)
    decreases LeafWork(leaf), 5
  {
    generator := new Generator();
    if leaf.Iterated? {
      var held := Hold(leaf);
      generator.Swap(held);
    }
  }

  // ----- consumers -----

  /** A range-for over a generator: the values up to the end or the first exception. The rest stays
      for a later loop over the same generator. */
  method ForEach(generator: Generator) returns (values: seq<int>, error: Option<int>)
    requires generator.Valid()
    modifies generator, generator.chain
    ensures generator.Valid()
    ensures forall i :: 0 <= i < |generator.chain| ==>
      (i < |old(generator.chain)| && generator.chain[i] == old(generator.chain)[i]) || fresh(generator.chain[i])
    ensures old(generator.Rest()) == Values(values) + (Failure(error) + generator.Rest())
    ensures error == None ==> generator.Empty() && generator.Rest() == []
  {
    ghost var all := generator.Rest();
    ghost var rest := all;
    values := [];
    var outcome := generator.Begin();
    generator.ShownFirst(all, outcome);
    while outcome == Suspended && generator.currentResult.Some?
      invariant generator.Showing(rest, outcome) && all == Values(values) + rest
      invariant forall i :: 0 <= i < |generator.chain| ==>
        (i < |old(generator.chain)| && generator.chain[i] == old(generator.chain)[i]) || fresh(generator.chain[i])
      decreases generator.WorkLeft()
    {
      rest := generator.Rest();
      AppendValue(values, generator.currentResult.value, rest);
      values := values + [generator.currentResult.value];
      outcome := generator.Resume();
      generator.ShownFirst(rest, outcome);
    }
    error := if outcome.Thrown? then Some(outcome.error) else None;
  }

  /** Loops over one generator until it is empty, catching what each loop throws. */
  method Exhaust(generator: Generator) returns (events: seq<Event>)
    requires generator.Valid()
    modifies generator, generator.chain
    ensures generator.Valid() && generator.Empty()
    ensures events == old(generator.Rest())
  {
    events := [];
    while !generator.Empty()
      invariant generator.Valid()
      invariant forall i :: 0 <= i < |generator.chain| ==>
        (i < |old(generator.chain)| && generator.chain[i] == old(generator.chain)[i]) || fresh(generator.chain[i])
      invariant old(generator.Rest()) == events + generator.Rest()
      decreases |generator.Rest()|, !generator.Empty()
    {
      var values, error := ForEach(generator);
      AppendLoop(events, values, error, generator.Rest());
      events := events + Values(values) + Failure(error);
    }
  }

  /** Calling a recursive generator and advancing it to its end yields the flattening of its body. */
  method Flatten(body: Body) returns (events: seq<Event>)
    ensures events == Flat(body)
  {
    var generator := new Generator.Start(body);
    events := Exhaust(generator);
  }
}
