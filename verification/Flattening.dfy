/** Laws of flattening: what splicing a range into a body means for the events of the whole. */
module Flattening {
  import opened Scripts

  /** A body with a hole, or one that splices in such a body, which its owner had already pulled `pulls`
      elements from. */
  datatype Context = Hole | Inside(before: Body, inner: Context, pulls: nat, after: Body)

  ghost predicate NeverThrows(body: Body) {
    forall i :: 0 <= i < |body| ==> !body[i].Throw?
  }

  /** Nothing throws in front of the hole, and nobody has pulled what is in the hole. */
  ghost predicate ReachesHole(context: Context) {
    context.Inside? ==>
      NeverThrows(context.before) && ReachesHole(context.inner) && context.pulls <= |Before(context.inner)|
  }

  function Plug(context: Context, body: Body): Body {
    match context
    case Hole => body
    case Inside(before, inner, pulls, after) => before + [ElementsOf(Iterated(Plug(inner, body), pulls))] + after
  }

  function Before(context: Context): seq<Event> {
    if context.Hole? then [] else Flat(context.before) + Skip(Before(context.inner), context.pulls)
  }

  function After(context: Context): seq<Event> {
    if context.Hole? then [] else After(context.inner) + Flat(context.after)
  }

  lemma {:induction false} FlatConcat(first: Body, second: Body)
    requires NeverThrows(first)
    ensures Flat(first + second) == Flat(first) + Flat(second)
  {
    if first == [] {
      assert first + second == second;
    } else {
      assert (first + second)[0] == first[0] && (first + second)[1..] == first[1..] + second;
      FlatConcat(first[1..], second);
      Assoc(FlatAction(first[0]), Flat(first[1..]), Flat(second));
    }
  }

  lemma FlatSplice(leaf: Leaf, after: Body)
    ensures Flat([ElementsOf(leaf)] + after) == FlatLeaf(leaf) + Flat(after)
  {
    var body := [ElementsOf(leaf)] + after;
    assert body[0] == ElementsOf(leaf) && body[1..] == after;
  }

  lemma Regroup<T>(a: seq<T>, b: seq<T>, c: seq<T>, d: seq<T>, e: seq<T>)
    ensures a + ((b + c + d) + e) == (a + b) + c + (d + e)
  {
  }

  lemma SkipInFront<T>(a: seq<T>, b: seq<T>, c: seq<T>, n: nat)
    requires n <= |a|
    ensures Skip(a + b + c, n) == Skip(a, n) + b + c
  {
    assert a == a[..n] + a[n..];
  }

  /** However deep a body is spliced in, its events stand between those of its owners. */
  lemma {:induction false} FlatInContext(context: Context, body: Body)
    requires ReachesHole(context)
    ensures Flat(Plug(context, body)) == Before(context) + Flat(body) + After(context)
  {
    match context
    case Hole =>
    case Inside(before, inner, pulls, after) =>
      FlatInContext(inner, body);
      var leaf := Iterated(Plug(inner, body), pulls);
      assert Plug(context, body) == before + ([ElementsOf(leaf)] + after);
      FlatConcat(before, [ElementsOf(leaf)] + after);
      FlatSplice(leaf, after);
      var rest := Skip(Before(inner), pulls);
      SkipInFront(Before(inner), Flat(body), After(inner), pulls);
      assert FlatLeaf(leaf) == rest + Flat(body) + After(inner);
      Regroup(Flat(before), rest, Flat(body), After(inner), Flat(after));
  }

  /** A frame that throws, at any depth, loses what it had left and nothing else: the consumer sees
      one exception and then the elements of the owners. */
  lemma ThrowLosesOnlyItsFrame(context: Context, before: Body, error: int, after: Body)
    requires ReachesHole(context) && NeverThrows(before)
    ensures Flat(Plug(context, before + [Throw(error)] + after))
         == Before(context) + Flat(before) + [Error(error)] + After(context)
  {
    var rest := [Throw(error)] + after;
    assert before + [Throw(error)] + after == before + rest;
    FlatConcat(before, rest);
    assert Flat(rest) == [Error(error)];
    FlatInContext(context, before + rest);
  }

  /** A yield, at any depth, shows its value between what stands in front of it and what stands behind. */
  lemma YieldShowsItsValue(context: Context, before: Body, value: int, after: Body)
    requires ReachesHole(context) && NeverThrows(before)
    ensures Flat(Plug(context, before + [Yield(value)] + after))
         == Before(context) + (Flat(before) + ([Value(value)] + Flat(after))) + After(context)
  {
    FlatYield(before, value, after);
    FlatInContext(context, before + [Yield(value)] + after);
  }

  lemma FlatYield(before: Body, value: int, after: Body)
    requires NeverThrows(before)
    ensures Flat(before + [Yield(value)] + after) == Flat(before) + ([Value(value)] + Flat(after))
  {
    var rest := [Yield(value)] + after;
    assert before + [Yield(value)] + after == before + rest;
    FlatConcat(before, rest);
    assert rest[0] == Yield(value) && rest[1..] == after;
  }

  /** A container is a range that yields its elements in order; of one that `pulls` elements were taken from,
      the owner shows the others. */
  lemma {:induction false} ContainerShowsItsElements(values: seq<int>, pulls: nat, after: Body)
    requires pulls <= |values|
    ensures var body := seq(|values|, i requires 0 <= i < |values| => Yield(values[i]));
            Flat([ElementsOf(Iterated(body, pulls))] + after) == Values(values[pulls..]) + Flat(after)
  {
    var body := seq(|values|, i requires 0 <= i < |values| => Yield(values[i]));
    FlatYields(body, values);
    FlatSplice(Iterated(body, pulls), after);
    assert Values(values)[pulls..] == Values(values[pulls..]);
  }

  lemma {:induction false} FlatYields(body: Body, values: seq<int>)
    requires |body| == |values| && forall i :: 0 <= i < |values| ==> body[i] == Yield(values[i])
    ensures Flat(body) == Values(values)
  {
    if values != [] {
      FlatYields(body[1..], values[1..]);
      assert Values(values) == [Value(values[0])] + Values(values[1..]);
    }
  }

  // ----- splicing against a loop over the leaf -----

  /** What a coroutine does that yields every element in a range-for of its own: an exception of the
      range goes through the loop and ends the coroutine. */
  function LoopOver(events: seq<Event>): Body {
    if events == [] then []
    else match events[0]
      case Value(v) => [Yield(v)] + LoopOver(events[1..])
      case Error(e) => [Throw(e)]
  }

  /** Elements before the first exception. */
  function Clean(events: seq<Event>): (n: nat)
    ensures n <= |events|
    ensures forall i :: 0 <= i < n ==> events[i].Value?
    ensures n < |events| ==> events[n].Error?
  {
    if events == [] || events[0].Error? then 0 else 1 + Clean(events[1..])
  }

  /** The events of a loop over `events` with `after` behind it. */
  function ThroughLoop(events: seq<Event>, after: seq<Event>): seq<Event> {
    if events == [] then after
    else if events[0].Error? then [events[0]]
    else [events[0]] + ThroughLoop(events[1..], after)
  }

  lemma {:induction false} FlatLoop(events: seq<Event>, after: Body)
    ensures Flat(LoopOver(events) + after) == ThroughLoop(events, Flat(after))
  {
    var body := LoopOver(events) + after;
    if events == [] {
      assert body == after;
    } else {
      match events[0]
      case Value(v) =>
        FlatLoop(events[1..], after);
        assert body[0] == Yield(v) && body[1..] == LoopOver(events[1..]) + after;
      case Error(e) =>
        assert body[0] == Throw(e);
    }
  }

  lemma {:induction false} LoopKeepsAll(events: seq<Event>, after: seq<Event>)
    ensures ThroughLoop(events, after) == events + after
       <==> Clean(events) == |events| || (Clean(events) == |events| - 1 && after == [])
  {
    if events == [] {
      assert events + after == after;
    } else {
      var rest := events[1..];
      assert events + after == [events[0]] + (rest + after);
      if events[0].Value? {
        LoopKeepsAll(rest, after);
        SameBehind(events[0], ThroughLoop(rest, after), rest + after);
      } else {
        SameBehind(events[0], [], rest + after);
      }
    }
  }

  lemma SameBehind<T>(first: T, a: seq<T>, b: seq<T>)
    ensures [first] + a == [first] + b <==> a == b
  {
    assert ([first] + a)[1..] == a && ([first] + b)[1..] == b;
  }

  /** `elements_of` and a loop that yields each element agree exactly when the range never throws, or
      throws as the very last thing of the range and of its owner. */
  lemma SpliceVersusLoop(leaf: Leaf, after: Body)
    ensures Flat([ElementsOf(leaf)] + after) == Flat(LoopOver(FlatLeaf(leaf)) + after)
       <==> var events := FlatLeaf(leaf);
            Clean(events) == |events| || (Clean(events) == |events| - 1 && Flat(after) == [])
  {
    FlatSplice(leaf, after);
    FlatLoop(FlatLeaf(leaf), after);
    LoopKeepsAll(FlatLeaf(leaf), Flat(after));
  }

  /** One range for which they differ: the owner goes on behind the spliced range, not behind the loop. */
  lemma SpliceDiffersFromLoop()
    ensures var leaf := Iterated([Throw(7)], 0);
            && Flat([ElementsOf(leaf), Yield(1)]) == [Error(7), Value(1)]
            && Flat(LoopOver(FlatLeaf(leaf)) + [Yield(1)]) == [Error(7)]
  {
    var leaf, after := Iterated([Throw(7)], 0), [Yield(1)];
    assert Flat([Throw(7)]) == [Error(7)];
    assert FlatLeaf(leaf) == [Error(7)];
    FlatSplice(leaf, after);
    assert [ElementsOf(leaf)] + after == [ElementsOf(leaf), Yield(1)];
    assert after[1..] == [] && Flat(after) == [Value(1)];
    FlatLoop([Error(7)], after);
  }
}
