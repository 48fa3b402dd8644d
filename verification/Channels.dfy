/** Channels: generators whose consumer is itself a coroutine, resumed by every value or end.

The splice is that of `Generators`; what differs is how a frame reaches its consumer. A channel binds
its root to the consumer on every `begin()` and `next()`, a frame that throws parks the exception in
the channel, and control goes to the coroutine handle stored there. */
module Channels {
  import opened Frames
  import opened Scripts
  import opened Wrappers

  /** A coroutine handle of any kind. */
  type Coroutine = object

  /** Where control goes when a frame suspends: another frame of the chain, the coroutine that waits
      for the channel, or nowhere because the process was terminated. */
  datatype Transfer = ToFrame(promise: Promise<Channel>) | ToConsumer(coroutine: object?) | Terminated

  method SetResult(frame: Promise<Channel>, result: Option<int>)
    requires frame.root.link.Consumer?
    modifies frame.root.link.consumer`currentResult
    ensures frame.root.link.consumer.currentResult == result
  {
    frame.root.link.consumer.currentResult := result;
  }

  /** The final awaiter. */
  method FinalSuspend(frame: Promise<Channel>) returns (next: Transfer)
    requires if frame.root != frame then frame.link.Owner? && frame.link.promise != frame else frame.link.Consumer?
    modifies (if frame.root != frame then {frame.link.promise} else {})`root
    modifies (if frame.root != frame then {frame.root} else {})`currentWorker
    modifies (if frame.root != frame then {} else {frame.link.consumer})`currentResult
    ensures if frame.root != frame
            then
              && next == ToFrame(frame.link.promise) && frame.link.promise.root == frame.root
              && frame.root.currentWorker == frame.link.promise
            else next == ToConsumer(frame.link.consumer.handle) && frame.link.consumer.currentResult == None
  {
    if frame.root != frame {
      frame.SkipThisLeaf();
      return ToFrame(frame.link.promise);
    }
    SetResult(frame, None);
    return ToConsumer(frame.root.link.consumer.handle);
  }

  /** Parks the exception in the channel and poses as a root, so that the final suspend that follows
      returns to the consumer. A second exception nobody has taken yet terminates. */
  method UnhandledException(frame: Promise<Channel>, error: int) returns (terminated: bool)
    requires frame.root.link.Consumer?
    requires frame.root != frame ==> frame.link.Owner? && frame.link.promise != frame
    modifies (if frame.root != frame then {frame.link.promise} else {})`root
    modifies (if frame.root != frame then {frame.root} else {})`currentWorker
    modifies frame.root.link.consumer`exception, frame`link, frame`root
    ensures terminated <==> old(frame.root.link.consumer.exception.Some?)
    ensures !terminated ==>
      && frame.root == frame && frame.link == old(frame.root.link)
      && frame.link.consumer.exception == Some(error)
    ensures !terminated && old(frame.root) != frame ==>
      && old(frame.link).promise.root == old(frame.root)
      && old(frame.root).currentWorker == old(frame.link).promise
  {
    if frame.root.link.consumer.exception != None {
      return true;
    }
    if frame.root != frame {
      frame.SkipThisLeaf();
    }
    frame.root.link.consumer.exception := Some(error);
    frame.link := Consumer(frame.root.link.consumer);
    frame.root := frame;
    return false;
  }

  /** An exception leaves the body: what the coroutine does up to its final suspend point. */
  method ThrowOut(frame: Promise<Channel>, error: int) returns (next: Transfer)
    requires frame.root.link.Consumer?
    requires frame.root != frame ==> frame.link.Owner? && frame.link.promise != frame
    modifies (if frame.root != frame then {frame.link.promise} else {})`root
    modifies (if frame.root != frame then {frame.root} else {})`currentWorker
    modifies frame.root.link.consumer`exception, frame.root.link.consumer`currentResult, frame`link, frame`root, frame`done
    ensures if old(frame.root.link.consumer.exception).Some? then next == Terminated
            else next == ToConsumer(old(frame.root.link.consumer).handle)
    ensures next != Terminated ==>
      && frame.done && frame.root == frame && frame.link == old(frame.root.link)
      && frame.link.consumer.exception == Some(error) && frame.link.consumer.currentResult == None
    ensures next != Terminated && old(frame.root) != frame ==>
      && old(frame.link).promise.root == old(frame.root)
      && old(frame.root).currentWorker == old(frame.link).promise
  {
    var terminated := UnhandledException(frame, error);
    if terminated {
      return Terminated;
    }
    frame.done := true;
    next := FinalSuspend(frame);
  }

  class Channel {
    var currentResult: Option<int>
    var handle: object?
    var top: Promise?<Channel>
    var exception: Option<int>
    ghost var chain: seq<Promise<Channel>>  // frames from the root to the active one
    ghost var bodies: seq<Body>    // what each of them has left

    ghost predicate Valid()
      reads this, top, chain
    {
      && Stacked(top, chain, bodies)
      && Rooted(chain)
      && (chain == [] ==> currentResult == None)
    }

    /** The elements this channel still has to give. */
    ghost function Rest(): seq<Event>
      reads `bodies
    {
      FlatChain(bodies)
    }

    ghost function WorkLeft(): nat
      reads `bodies
    {
      ChainWork(bodies)
    }

    constructor ()
      ensures Valid() && top == null && Rest() == [] && exception == None
    {
      currentResult, handle, top, exception := None, null, null, None;
      chain, bodies := [], [];
    }

    /** Calls a coroutine: a frame suspended before its body. */
    constructor Start(body: Body)
      ensures Valid() && top != null && fresh(top) && chain == [top] && !top.done
      ensures Rest() == Flat(body) && WorkLeft() == Work(body) && exception == None
    {
      var frame := new Promise<Channel>(body);
      currentResult, handle, top, exception := None, null, frame, None;
      chain, bodies := [frame], [body];
      ChainLast([body]);
    }

    predicate Empty()
      reads this, top
    {
      top == null || top.done
    }

    /** Ready for a frame to run: the root knows this channel. */
    ghost predicate Bound()
      reads this, top, chain
    {
      Valid() && top != null && top.link == Consumer(this)
    }

    /** What an advance shows for the first element of `rest`, or when there is none. The consumer is
        resumed in any case, unless an exception finds another one still waiting to be taken. */
    ghost predicate Shows(rest: seq<Event>, pending: Option<int>, next: Transfer)
      reads this, chain
    {
      if rest != [] && rest[0].Error? && pending.Some? then
        next == Terminated
      else
        && next == ToConsumer(handle)
        && if rest == [] then
             currentResult == None && exception == pending && chain == []
           else
             && Rest() == rest[1..]
             && match rest[0]
                case Value(v) => currentResult == Some(v) && exception == pending && chain != []
                case Error(e) => currentResult == None && exception == Some(e)
    }

    /** The event a consumer has in its hands after an advance before which `pending` was not yet taken. */
    ghost function Shown(pending: Option<int>): seq<Event>
      reads this
    {
      if currentResult.Some? then [Value(currentResult.value)]
      else if pending == None then Failure(exception)
      else []
    }

    /** What the advance shows comes first in `rest`; without a value the loop is over. */
    ghost predicate Showing(rest: seq<Event>, pending: Option<int>)
      reads this, top, chain
    {
      && Valid()
      && (chain != [] ==> Bound())
      && rest == Shown(pending) + Rest()
      && (currentResult.Some? ==> chain != [])
      && (currentResult.Some? || pending.Some? ==> exception == pending)
      && (currentResult == None && exception == pending ==> chain == [])
    }

    lemma ShownFirst(rest: seq<Event>, pending: Option<int>, next: Transfer)
      requires Valid() && (chain != [] ==> Bound()) && next != Terminated
      requires Shows(rest, pending, next) || (rest == [] && chain == [] && exception == pending)
      ensures Showing(rest, pending)
    {
      if rest != [] {
        assert rest == [rest[0]] + rest[1..];
      }
    }

    // ----- what one frame does when it is active -----

    /** The active frame suspends for the last time: control goes to its owner, or to the consumer. */
    method Finish(worker: Promise<Channel>) returns (next: Transfer)
      requires Bound() && chain != [] && worker == chain[|chain| - 1]
      modifies this`currentResult, this`chain, this`bodies, chain
      ensures Bound() && top == old(top) && chain == old(chain)[..|old(chain)| - 1]
      ensures bodies == old(bodies)[..|chain|]
      ensures next == if chain == [] then ToConsumer(handle) else ToFrame(chain[|chain| - 1])
    {
      ActiveFrameOnce(chain);
      assert worker.root == top;
      assert |chain| > 1 ==> worker.link == Owner(chain[|chain| - 2]) && worker != top;
      worker.done := true;
      next := FinalSuspend(worker);
      chain, bodies := chain[..|chain| - 1], bodies[..|chain| - 1];
      assert Owned(chain);
    }

    /** The active frame throws: only what it had left is lost. */
    method Fail(worker: Promise<Channel>, error: int) returns (next: Transfer)
      requires Bound() && chain != [] && worker == chain[|chain| - 1]
      modifies this`currentResult, this`exception, this`chain, this`bodies, chain
      ensures if old(exception).Some? then next == Terminated else next == ToConsumer(handle)
      ensures next != Terminated ==>
        && Bound() && top == old(top) && chain == old(chain)[..|old(chain)| - 1]
        && bodies == old(bodies)[..|chain|]
        && currentResult == None && exception == Some(error)
    {
      ActiveFrameOnce(chain);
      assert worker.root == top;
      assert |chain| > 1 ==> worker.link == Owner(chain[|chain| - 2]) && worker != top;
      next := ThrowOut(worker, error);
      if next == Terminated {
        return;
      }
      chain, bodies := chain[..|chain| - 1], bodies[..|chain| - 1];
      assert Owned(chain);
    }

    /** The active frame moves past its first action. */
    method Advance(worker: Promise<Channel>)
      requires Bound() && chain != [] && worker == chain[|chain| - 1] && worker.body != []
      modifies worker`body, `bodies
      ensures Bound() && worker.body == old(worker.body)[1..]
      ensures bodies == old(bodies)[..|chain| - 1] + [worker.body]
    {
      ActiveFrameOnce(chain);
      worker.body := worker.body[1..];
      bodies := bodies[..|chain| - 1] + [worker.body];
    }

    /** The active frame yields all of `leaf`, which has not finished yet. */
    method Splice(worker: Promise<Channel>, leaf: Channel) returns (next: Promise<Channel>)
      requires Bound() && chain != [] && worker == chain[|chain| - 1]
      requires leaf.Valid() && leaf.chain != [] && top != leaf.top
      modifies this`chain, this`bodies, chain, leaf.chain
      ensures Bound() && top == old(top) && chain == old(chain) + old(leaf.chain)
      ensures bodies == old(bodies) + old(leaf.bodies)
      ensures next == chain[|chain| - 1]
    {
      next := Frames.Splice(top, chain, bodies, worker, leaf.top, leaf.chain, leaf.bodies);
      chain, bodies := chain + leaf.chain, bodies + leaf.bodies;
    }

    // ----- resuming -----

    /** Awaiting the leaf: one that is already finished does not suspend the frame. */
    method AwaitLeaf(worker: Promise<Channel>, leaf: Channel) returns (next: Promise<Channel>)
      requires Bound() && chain != [] && worker == chain[|chain| - 1]
      requires leaf.Valid() && top != leaf.top
      modifies this`chain, this`bodies, chain, leaf.chain
      ensures Bound() && top == old(top) && chain == old(chain) + old(leaf.chain)
      ensures bodies == old(bodies) + old(leaf.bodies)
      ensures next == chain[|chain| - 1]
    {
      next := worker;
      if !leaf.Empty() {
        next := Splice(worker, leaf);
      }
    }

    /** The frame moves past the `co_yield` and awaits the leaf. */
    method PassAndAwait(worker: Promise<Channel>, leaf: Channel) returns (next: Promise<Channel>)
      requires Bound() && chain != [] && worker == chain[|chain| - 1] && worker.body != []
      requires leaf.Valid() && top != leaf.top && worker !in leaf.chain
      modifies worker`body, this`chain, this`bodies, chain, leaf.chain
      ensures Bound() && top == old(top) && chain == old(chain) + old(leaf.chain)
      ensures bodies == old(bodies)[..|old(chain)| - 1] + [old(worker.body)[1..]] + old(leaf.bodies)
      ensures next == chain[|chain| - 1]
    {
      Advance(worker);
      next := AwaitLeaf(worker, leaf);
    }

    /** `co_yield elements_of(..)`. */
    method RunElementsOf(worker: Promise<Channel>) returns (next: Promise<Channel>)
      requires Bound() && chain != [] && worker == chain[|chain| - 1]
      requires worker.body != [] && worker.body[0].ElementsOf?
      modifies this`chain, this`bodies, chain
      ensures Bound() && top == old(top)
      ensures old(chain) <= chain && forall i :: |old(chain)| <= i < |chain| ==> fresh(chain[i])
      ensures WorkLeft() < old(WorkLeft()) && Rest() == old(Rest())
      ensures chain != [] && next == chain[|chain| - 1]
      decreases WorkLeft(), 0
    {
      ghost var before, body := bodies, worker.body;
      assert before[|before| - 1] == body;
      OperandIsSmaller(before);
      var leaf := Make(worker.body[0].leaf, worker);
      ghost var operand := leaf.bodies;
      assert Bound() && worker !in leaf.chain;
      next := PassAndAwait(worker, leaf);
      assert bodies == before[..|before| - 1] + [body[1..]] + operand;
      ElementsOfInBody(before, operand, bodies);
    }

    /** `co_yield value`. */
    method RunYield(worker: Promise<Channel>) returns (next: Transfer)
      requires Bound() && chain != [] && worker == chain[|chain| - 1]
      requires worker.body != [] && worker.body[0].Yield?
      modifies `currentResult, `bodies, worker`body
      ensures Bound() && WorkLeft() < old(WorkLeft())
      ensures next == ToConsumer(handle) && currentResult.Some?
      ensures old(Rest()) == [Value(currentResult.value)] + Rest()
    {
      var value := worker.body[0].value;
      Advance(worker);
      YieldInBody(old(bodies), bodies);
      SetResult(worker, Some(value));
      next := ToConsumer(worker.root.link.consumer.handle);
    }

    /** Runs the active frame up to its next suspension. */
    method RunWorker(worker: Promise<Channel>) returns (next: Transfer)
      requires Bound() && chain != [] && worker == chain[|chain| - 1]
      modifies this`currentResult, this`exception, this`chain, this`bodies, chain
      ensures next != Terminated ==> Bound() && top == old(top) && WorkLeft() < old(WorkLeft())
      ensures next != Terminated ==>
        forall i :: 0 <= i < |chain| ==> (i < |old(chain)| && chain[i] == old(chain)[i]) || fresh(chain[i])
      ensures if next.ToFrame?
              then Rest() == old(Rest()) && exception == old(exception) && chain != [] && next.promise == chain[|chain| - 1]
              else Shows(old(Rest()), old(exception), next)
      decreases WorkLeft(), 1
    {
      if worker.body == [] {
        EndOfBody(bodies);
        next := Finish(worker);
      } else if worker.body[0].Throw? {
        ThrowInBody(bodies);
        next := Fail(worker, worker.body[0].error);
      } else if worker.body[0].Yield? {
        next := RunYield(worker);
      } else {
        var promise := RunElementsOf(worker);
        next := ToFrame(promise);
      }
    }

    /** Transfers control to the active frame, which `++` does without binding the root anew. */
    method Increment() returns (next: Transfer)
      requires Bound() && chain != []
      modifies this`currentResult, this`exception, this`chain, this`bodies, chain
      ensures next != Terminated ==> Bound() && top == old(top) && WorkLeft() < old(WorkLeft())
      ensures next != Terminated ==>
        forall i :: 0 <= i < |chain| ==> (i < |old(chain)| && chain[i] == old(chain)[i]) || fresh(chain[i])
      ensures Shows(old(Rest()), old(exception), next)
      decreases WorkLeft(), 2
    {
      next := ToFrame(top.currentWorker);
      while next.ToFrame?
        invariant next != Terminated ==> Bound() && top == old(top) && WorkLeft() <= old(WorkLeft())
        invariant next != Terminated ==>
          forall i :: 0 <= i < |chain| ==> (i < |old(chain)| && chain[i] == old(chain)[i]) || fresh(chain[i])
        invariant if next.ToFrame?
                  then Rest() == old(Rest()) && exception == old(exception) && chain != [] && next.promise == chain[|chain| - 1]
                  else Shows(old(Rest()), old(exception), next) && (next != Terminated ==> WorkLeft() < old(WorkLeft()))
        decreases next.ToFrame?, WorkLeft()
      {
        next := RunWorker(next.promise);
      }
    }

    /** Awaiting `begin()` or `next()`: the channel learns who waits, its root learns the channel. */
    method Next(consumer: Coroutine) returns (next: Transfer)
      requires Valid()
      modifies this, chain
      ensures top == old(top) && handle == if old(chain) == [] then old(handle) else consumer
      ensures next != Terminated ==> Valid() && WorkLeft() <= old(WorkLeft())
      ensures next != Terminated ==>
        forall i :: 0 <= i < |chain| ==> (i < |old(chain)| && chain[i] == old(chain)[i]) || fresh(chain[i])
      ensures old(chain) == [] ==> next == ToConsumer(consumer) && unchanged(this)
      ensures old(chain) != [] ==> Shows(old(Rest()), old(exception), next)
      ensures old(chain) != [] && next != Terminated ==> Bound() && WorkLeft() < old(WorkLeft())
      decreases WorkLeft(), 3
    {
      if Empty() {
        return ToConsumer(consumer);
      }
      handle := consumer;
      top.link := Consumer(this);
      assert Owned(chain);
      next := Increment();
    }

    /** `++` of a loop that goes on, unless a throw meets an exception that was not taken. */
    method Continue() returns (terminated: bool)
      requires Bound() && chain != []
      modifies this, chain
      ensures terminated <==> old(exception).Some? && old(Rest()) != [] && old(Rest())[0].Error?
      ensures !terminated ==> Showing(old(Rest()), old(exception)) && WorkLeft() < old(WorkLeft())
      ensures !terminated ==>
        forall i :: 0 <= i < |chain| ==> (i < |old(chain)| && chain[i] == old(chain)[i]) || fresh(chain[i])
    {
      ghost var rest, pending := Rest(), exception;
      var next := Increment();
      terminated := next == Terminated;
      if !terminated {
        ShownFirst(rest, pending, next);
      }
    }

    /** `begin()` of a loop. */
    method BeginLoop(consumer: Coroutine) returns (terminated: bool)
      requires Valid()
      modifies this, chain
      ensures terminated <==> old(exception).Some? && old(Rest()) != [] && old(Rest())[0].Error?
      ensures !terminated ==> Showing(old(Rest()), old(exception)) && WorkLeft() <= old(WorkLeft())
      ensures !terminated ==>
        forall i :: 0 <= i < |chain| ==> (i < |old(chain)| && chain[i] == old(chain)[i]) || fresh(chain[i])
    {
      ghost var rest, pending := Rest(), exception;
      var next := Next(consumer);
      terminated := next == Terminated;
      if !terminated {
        ShownFirst(rest, pending, next);
      }
    }

    /** Hands out the exception and marks it as handled. */
    method TakeException() returns (error: Option<int>)
      requires Valid()
      modifies `exception
      ensures Valid() && error == old(exception) && exception == None
    {
      error, exception := exception, None;
    }

    /** One step of a consumer that catches what it gets. */
    method Pull(consumer: Coroutine)
      requires Valid() && exception == None
      modifies this, chain
      ensures Valid() && exception == None && top == old(top)
      ensures forall i :: 0 <= i < |chain| ==> (i < |old(chain)| && chain[i] == old(chain)[i]) || fresh(chain[i])
      ensures Rest() == if old(Rest()) == [] then [] else old(Rest())[1..]
      ensures WorkLeft() <= old(WorkLeft())
      decreases WorkLeft(), 4
    {
      var _ := Next(consumer);
      var _ := TakeException();
    }

    method SwapFields(other: Channel)
      modifies this, other
      ensures top == old(other.top) && chain == old(other.chain) && bodies == old(other.bodies)
      ensures other.top == old(top) && other.chain == old(chain) && other.bodies == old(bodies)
      ensures currentResult == old(other.currentResult) && other.currentResult == old(currentResult)
      ensures exception == old(other.exception) && other.exception == old(exception)
    {
      currentResult, other.currentResult := other.currentResult, currentResult;
      handle, other.handle := other.handle, handle;
      top, other.top := other.top, top;
      exception, other.exception := other.exception, exception;
      chain, other.chain := other.chain, chain;
      bodies, other.bodies := other.bodies, bodies;
    }

    /** Swapping leaves the roots as they are: the next `begin()` or `next()` binds them. */
    method Swap(other: Channel)
      requires Valid() && other.Valid()
      modifies this, other
      ensures Valid() && other.Valid()
      ensures top == old(other.top) && chain == old(other.chain) && bodies == old(other.bodies)
      ensures other.top == old(top) && other.chain == old(chain) && other.bodies == old(bodies)
      ensures exception == old(other.exception) && other.exception == old(exception)
    {
      SwapFields(other);
    }
  }

  /** A range that the coroutine `self` holds, iterated as often as `leaf` says. */
  method Hold(leaf: Leaf, self: Promise<Channel>) returns (held: Channel)
    requires leaf.Iterated?
    ensures fresh(held) && held.Valid() && fresh(held.chain)
    ensures held.top != null && fresh(held.top) && held.exception == None
    ensures held.Rest() == if leaf.pulls < |Flat(leaf.body)| then Flat(leaf.body)[leaf.pulls..] else []
    ensures held.WorkLeft() <= LeafWork(leaf)
    decreases LeafWork(leaf), 5
  {
    held := new Channel.Start(leaf.body);
    for i := 0 to leaf.pulls
      invariant fresh(held) && held.Valid()
      invariant forall j :: 0 <= j < |held.chain| ==> fresh(held.chain[j])
      invariant held.top != null && fresh(held.top) && held.exception == None
      invariant held.Rest() == if i < |Flat(leaf.body)| then Flat(leaf.body)[i..] else []
      invariant held.WorkLeft() <= LeafWork(leaf)
    {
      held.Pull(self);
    }
  }

  /** Evaluates the operand of `elements_of` in the frame `self`: the range held by the coroutine,
      iterated as often as it was before, is moved into the awaiter. */
  method Make(leaf: Leaf, self: Promise<Channel>) returns (channel: Channel)
    ensures fresh(channel) && channel.Valid() && fresh(channel.chain)
    ensures channel.top != null ==> fresh(channel.top)
    ensures channel.Rest() == FlatLeaf(leaf)
    ensures leaf.NoFrame? ==> channel.Rest() == []
    ensures leaf.Iterated? ==>
      channel.Rest() == if leaf.pulls < |Flat(leaf.body)| then Flat(leaf.body)[leaf.pulls..] else []
    ensures channel.WorkLeft() <= LeafWork(leaf)
    decreases LeafWork(leaf), 6
  {
    channel := new Channel();
    if leaf.Iterated? {
      var held := Hold(leaf, self);
      channel.Swap(held);
    }
  }

  // ----- consumers -----

  /** `co_foreach` in the coroutine `consumer`: the values up to the end or the first exception, which
      is taken and rethrown when the loop is left. An exception that was not yet taken before the loop is
      rethrown at its end; another one on top of it terminates. */
  method ForEach(channel: Channel, consumer: Coroutine)
      returns (values: seq<int>, error: Option<int>, terminated: bool)
    requires channel.Valid()
    modifies channel, channel.chain
    ensures terminated ==>
      && old(channel.exception).Some? && |values| < |old(channel.Rest())|
      && old(channel.Rest())[..|values|] == Values(values) && old(channel.Rest())[|values|].Error?
    ensures !terminated ==> channel.Valid() && channel.exception == None
    ensures !terminated ==> forall i :: 0 <= i < |channel.chain| ==>
      (i < |old(channel.chain)| && channel.chain[i] == old(channel.chain)[i]) || fresh(channel.chain[i])
    ensures !terminated && old(channel.exception) == None ==>
      && old(channel.Rest()) == Values(values) + (Failure(error) + channel.Rest())
      && (error == None ==> channel.Empty() && channel.Rest() == [])
    ensures !terminated && old(channel.exception).Some? ==>
      && error == old(channel.exception)
      && old(channel.Rest()) == Values(values) && channel.Empty() && channel.Rest() == []
  {
    ghost var all, pending := channel.Rest(), channel.exception;
    values := [];
    terminated := channel.BeginLoop(consumer);
    ghost var rest := all;
    while !terminated && channel.currentResult.Some?
      invariant all == Values(values) + rest
      invariant terminated ==> pending.Some? && rest != [] && rest[0].Error?
      invariant !terminated ==> channel.Showing(rest, pending)
      invariant !terminated ==> forall i :: 0 <= i < |channel.chain| ==>
        (i < |old(channel.chain)| && channel.chain[i] == old(channel.chain)[i]) || fresh(channel.chain[i])
      decreases !terminated, channel.WorkLeft()
    {
      rest := channel.Rest();
      AppendValue(values, channel.currentResult.value, rest);
      values := values + [channel.currentResult.value];
      terminated := channel.Continue();
    }
    error := None;
    if !terminated {
      error := channel.TakeException();
    }
  }

  /** Loops over one channel until it is empty, catching what each loop throws. */
  method Exhaust(channel: Channel, consumer: Coroutine) returns (events: seq<Event>)
    requires channel.Valid() && channel.exception == None
    modifies channel, channel.chain
    ensures channel.Valid() && channel.Empty()
    ensures events == old(channel.Rest())
  {
    events := [];
    while !channel.Empty()
      invariant channel.Valid() && channel.exception == None
      invariant forall i :: 0 <= i < |channel.chain| ==>
        (i < |old(channel.chain)| && channel.chain[i] == old(channel.chain)[i]) || fresh(channel.chain[i])
      invariant old(channel.Rest()) == events + channel.Rest()
      decreases |channel.Rest()|, !channel.Empty()
    {
      var values, error, _ := ForEach(channel, consumer);
      AppendLoop(events, values, error, channel.Rest());
      events := events + Values(values) + Failure(error);
    }
  }

  /** Calling a recursive channel and advancing it to its end yields the flattening of its body: the
      very events a generator with that body yields. */
  method Flatten(body: Body, consumer: Coroutine) returns (events: seq<Event>)
    ensures events == Flat(body)
  {
    var channel := new Channel.Start(body);
    events := Exhaust(channel, consumer);
  }
}
