/** Coroutine bodies as scripts, and the events their iteration is meant to produce.

A body is a list of actions: yield a value, splice another range in with `elements_of`, or throw.
Reaching the end of the list is `co_return`. The operand of `elements_of` is either a generator
without a frame, or a generator made from a body and already advanced `pulls` times by whoever held
it before; a container operand is a body that only yields.

`Flat` is the reference meaning: plain depth-first flattening, with no frames and no pointers. */
module Scripts {
  import opened Wrappers

  type Body = seq<Action>

  datatype Action =
    | Yield(value: int)
    | ElementsOf(leaf: Leaf)
    | Throw(error: int)

  datatype Leaf =
    | NoFrame
    | Iterated(body: seq<Action>, pulls: nat)

  /** What one advance of an iterator shows its consumer. */
  datatype Event = Value(value: int) | Error(error: int)

  function Values(values: seq<int>): (events: seq<Event>)
    ensures |events| == |values|
  {
    seq(|values|, i requires 0 <= i < |values| => Value(values[i]))
  }

  lemma AppendValue(values: seq<int>, value: int, rest: seq<Event>)
    ensures Values(values) + ([Value(value)] + rest) == Values(values + [value]) + rest
  {
    assert Values(values + [value]) == Values(values) + [Value(value)];
  }

  function Failure(error: Option<int>): seq<Event> {
    if error.Some? then [Error(error.value)] else []
  }

  lemma AppendLoop(events: seq<Event>, values: seq<int>, error: Option<int>, rest: seq<Event>)
    ensures events + (Values(values) + (Failure(error) + rest)) == (events + Values(values) + Failure(error)) + rest
  {
  }

  /** What is left of `s` after `n` elements were taken from it. */
  function Skip<T>(s: seq<T>, n: nat): (rest: seq<T>)
    ensures |rest| == if n <= |s| then |s| - n else 0
    ensures forall i :: 0 <= i < |rest| ==> rest[i] == s[n + i]
  {
    if n >= |s| then [] else s[n..]
  }

  /** Depth-first flattening. A throw ends its own body only. */
  function Flat(body: Body): seq<Event>
    decreases body, 0
  {
    if body == [] then []
    else if body[0].Throw? then [Error(body[0].error)]
    else FlatAction(body[0]) + Flat(body[1..])
  }

  function FlatAction(action: Action): seq<Event>
    decreases action, 1
  {
    match action
    case Yield(v) => [Value(v)]
    case Throw(e) => [Error(e)]
    case ElementsOf(leaf) => FlatLeaf(leaf)
  }

  /** A leaf contributes exactly the elements nobody has taken from it yet. */
  function FlatLeaf(leaf: Leaf): seq<Event>
    decreases leaf, 1
  {
    match leaf
    case NoFrame => []
    case Iterated(body, pulls) => Skip(Flat(body), pulls)
  }

  /** The elements taken from a range and those it contributes are the elements of its body, in order, and
      nobody takes more than there are. */
  lemma TakenAndLeft(body: Body, pulls: nat)
    ensures exists taken: seq<Event> ::
      && Flat(body) == taken + FlatLeaf(Iterated(body, pulls))
      && |taken| == if pulls < |Flat(body)| then pulls else |Flat(body)|
  {
    var events := Flat(body);
    var taken := events[..if pulls < |events| then pulls else |events|];
    assert events == taken + FlatLeaf(Iterated(body, pulls));
  }

  /** Meaning of a chain of suspended bodies, outermost first: the innermost one goes first. */
  function FlatChain(bodies: seq<Body>): seq<Event> {
    if bodies == [] then [] else FlatChain(bodies[1..]) + Flat(bodies[0])
  }

  // ----- work left, for termination -----

  function Work(body: Body): nat
    decreases body, 0
  {
    if body == [] then 1 else 1 + ActionWork(body[0]) + Work(body[1..])
  }

  function ActionWork(action: Action): nat
    decreases action, 1
  {
    if action.ElementsOf? then LeafWork(action.leaf) else 0
  }

  function LeafWork(leaf: Leaf): nat
    decreases leaf, 1
  {
    match leaf
    case NoFrame => 0
    case Iterated(body, _) => Work(body)
  }

  function ChainWork(bodies: seq<Body>): nat {
    if bodies == [] then 0 else ChainWork(bodies[1..]) + Work(bodies[0])
  }

  lemma {:induction false} ChainConcat(outer: seq<Body>, inner: seq<Body>)
    ensures FlatChain(outer + inner) == FlatChain(inner) + FlatChain(outer)
    ensures ChainWork(outer + inner) == ChainWork(inner) + ChainWork(outer)
  {
    if outer == [] {
      assert outer + inner == inner;
      assert FlatChain(inner) + FlatChain([]) == FlatChain(inner);
    } else {
      var rest := outer[1..];
      ChainConcat(rest, inner);
      assert (outer + inner)[1..] == rest + inner && (outer + inner)[0] == outer[0];
      Assoc(FlatChain(inner), FlatChain(rest), Flat(outer[0]));
    }
  }

  lemma SingleBody(body: Body)
    ensures FlatChain([body]) == Flat(body) && ChainWork([body]) == Work(body)
  {
    assert [body][1..] == [];
    assert FlatChain([]) + Flat(body) == Flat(body);
  }

  lemma ChainLast(bodies: seq<Body>)
    requires bodies != []
    ensures FlatChain(bodies) == Flat(bodies[|bodies| - 1]) + FlatChain(bodies[..|bodies| - 1])
    ensures ChainWork(bodies) == Work(bodies[|bodies| - 1]) + ChainWork(bodies[..|bodies| - 1])
  {
    var outer, last := bodies[..|bodies| - 1], bodies[|bodies| - 1];
    assert bodies == outer + [last];
    ChainConcat(outer, [last]);
    SingleBody(last);
  }

  // ----- one step of the innermost body -----

  lemma EndOfBody(bodies: seq<Body>)
    requires bodies != [] && bodies[|bodies| - 1] == []
    ensures FlatChain(bodies[..|bodies| - 1]) == FlatChain(bodies)
    ensures ChainWork(bodies[..|bodies| - 1]) < ChainWork(bodies)
  {
    ChainLast(bodies);
  }

  lemma ThrowInBody(bodies: seq<Body>)
    requires bodies != [] && bodies[|bodies| - 1] != [] && bodies[|bodies| - 1][0].Throw?
    ensures FlatChain(bodies) != [] && FlatChain(bodies)[0] == Error(bodies[|bodies| - 1][0].error)
    ensures FlatChain(bodies[..|bodies| - 1]) == FlatChain(bodies)[1..]
    ensures ChainWork(bodies[..|bodies| - 1]) < ChainWork(bodies)
  {
    ChainLast(bodies);
  }

  lemma ActionOfBody(bodies: seq<Body>, next: seq<Body>)
    requires bodies != [] && bodies[|bodies| - 1] != [] && !bodies[|bodies| - 1][0].Throw?
    requires next == bodies[..|bodies| - 1] + [bodies[|bodies| - 1][1..]]
    ensures FlatChain(bodies) == FlatAction(bodies[|bodies| - 1][0]) + FlatChain(next)
    ensures ChainWork(bodies) == 1 + ActionWork(bodies[|bodies| - 1][0]) + ChainWork(next)
  {
    var outer, body := bodies[..|bodies| - 1], bodies[|bodies| - 1];
    ChainLast(bodies);
    assert next[..|next| - 1] == outer && next[|next| - 1] == body[1..];
    ChainLast(next);
    assert Flat(body) == FlatAction(body[0]) + Flat(body[1..]);
    Assoc(FlatAction(body[0]), Flat(body[1..]), FlatChain(outer));
  }

  lemma Assoc<T>(a: seq<T>, b: seq<T>, c: seq<T>)
    ensures (a + b) + c == a + (b + c)
  {
  }

  lemma YieldInBody(bodies: seq<Body>, next: seq<Body>)
    requires bodies != [] && bodies[|bodies| - 1] != [] && bodies[|bodies| - 1][0].Yield?
    requires next == bodies[..|bodies| - 1] + [bodies[|bodies| - 1][1..]]
    ensures FlatChain(bodies) != [] && FlatChain(bodies)[0] == Value(bodies[|bodies| - 1][0].value)
    ensures FlatChain(next) == FlatChain(bodies)[1..]
    ensures ChainWork(next) < ChainWork(bodies)
  {
    ActionOfBody(bodies, next);
  }

  lemma ElementsOfInBody(bodies: seq<Body>, leaf: seq<Body>, next: seq<Body>)
    requires bodies != [] && bodies[|bodies| - 1] != [] && bodies[|bodies| - 1][0].ElementsOf?
    requires FlatChain(leaf) == FlatLeaf(bodies[|bodies| - 1][0].leaf)
    requires ChainWork(leaf) <= LeafWork(bodies[|bodies| - 1][0].leaf)
    requires next == bodies[..|bodies| - 1] + [bodies[|bodies| - 1][1..]] + leaf
    ensures FlatChain(next) == FlatChain(bodies)
    ensures ChainWork(next) < ChainWork(bodies)
  {
    var owner := bodies[..|bodies| - 1] + [bodies[|bodies| - 1][1..]];
    ActionOfBody(bodies, owner);
    ChainConcat(owner, leaf);
  }

  lemma OperandIsSmaller(bodies: seq<Body>)
    requires bodies != [] && bodies[|bodies| - 1] != [] && bodies[|bodies| - 1][0].ElementsOf?
    ensures LeafWork(bodies[|bodies| - 1][0].leaf) < ChainWork(bodies)
  {
    ChainLast(bodies);
  }
}
