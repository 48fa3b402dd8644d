/** Coroutines that park in a FIFO and are resumed inline, one after the other, by whoever pops the list. A
resumed coroutine may do anything before it returns to the walk: park again, or pop the list anew and so
start a walk inside the walk. Each parking gets a ticket of its own. */
module Waiters {

  /** A popped list in the middle of being resumed; it was popped when `limit` tickets were given out. */
  datatype Walk = Walk(rest: seq<nat>, limit: nat)

  /** `walks` has the innermost walk first. */
  datatype Waiters = Waiters(queue: seq<nat>, walks: seq<Walk>, resumed: seq<nat>, parked: nat)

  function Park(w: Waiters): Waiters {
    w.(queue := w.queue + [w.parked], parked := w.parked + 1)
  }

  function PopAll(w: Waiters): Waiters {
    w.(queue := [], walks := [Walk(w.queue, w.parked)] + w.walks)
  }

  predicate CanResume(w: Waiters) {
    w.walks != [] && w.walks[0].rest != []
  }

  /** The walk reads the next node and resumes this one. */
  function Resume(w: Waiters): Waiters
    requires CanResume(w)
  {
    var walk := w.walks[0];
    w.(walks := [walk.(rest := walk.rest[1..])] + w.walks[1..], resumed := w.resumed + [walk.rest[0]])
  }

  predicate CanEnd(w: Waiters) {
    w.walks != [] && w.walks[0].rest == []
  }

  function End(w: Waiters): Waiters
    requires CanEnd(w)
  {
    w.(walks := w.walks[1..])
  }

  const NOBODY := Waiters([], [], [], 0)

  // ----- who waits -----

  /** Popped, but not yet resumed. */
  function Popped(walks: seq<Walk>): seq<nat> {
    if walks == [] then [] else walks[0].rest + Popped(walks[1..])
  }

  /** All who wait, in the order in which they will be resumed if nobody parks or pops any more. */
  function Waiting(w: Waiters): seq<nat> {
    Popped(w.walks) + w.queue
  }

  ghost predicate Increasing(s: seq<nat>) {
    forall i, j :: 0 <= i < j < |s| ==> s[i] < s[j]
  }

  /** Every parking so far is resumed or waiting, and only once; each list is in the order of parking, and
      what a walk resumes had parked before the walk began. */
  ghost predicate Valid(w: Waiters) {
    && (forall t: nat :: Places(w, t) == if t < w.parked then 1 else 0)
    && Increasing(w.queue)
    && (forall walk <- w.walks :: Increasing(walk.rest) && walk.limit <= w.parked && forall t <- walk.rest :: t < walk.limit)
  }

  ghost function Places(w: Waiters, t: nat): nat {
    multiset(w.resumed)[t] + multiset(Popped(w.walks))[t] + multiset(w.queue)[t]
  }

  /** Everybody is resumed in the order of parking. */
  ghost predicate Fifo(w: Waiters) {
    Increasing(w.resumed + Waiting(w))
  }

  lemma IncreasingAppend(s: seq<nat>, t: nat)
    requires Increasing(s) && forall u <- s :: u < t
    ensures Increasing(s + [t])
  {
    assert forall i :: 0 <= i < |s| ==> s[i] in s && (s + [t])[i] == s[i];
  }

  lemma ParkKeepsValid(w: Waiters)
    requires Valid(w)
    ensures Valid(Park(w))
  {
    forall t <- w.queue
      ensures t < w.parked
    {
      assert multiset(w.queue)[t] > 0;
      assert Places(w, t) > 0;
    }
    IncreasingAppend(w.queue, w.parked);
    forall t: nat
      ensures Places(Park(w), t) == if t < w.parked + 1 then 1 else 0
    {
      assert Places(w, t) == if t < w.parked then 1 else 0;
      assert multiset(w.queue + [w.parked])[t] == multiset(w.queue)[t] + if t == w.parked then 1 else 0;
    }
  }

  lemma PopAllKeepsValid(w: Waiters)
    requires Valid(w)
    ensures Valid(PopAll(w)) && Popped(PopAll(w).walks) == w.queue + Popped(w.walks)
  {
    assert PopAll(w).walks[1..] == w.walks;
    forall t <- w.queue
      ensures t < w.parked
    {
      assert multiset(w.queue)[t] > 0;
      assert Places(w, t) > 0;
    }
    forall t: nat
      ensures Places(PopAll(w), t) == Places(w, t)
    {
      assert multiset(w.queue + Popped(w.walks))[t] == multiset(w.queue)[t] + multiset(Popped(w.walks))[t];
    }
  }

  lemma ResumePopped(w: Waiters)
    requires CanResume(w)
    ensures Popped(w.walks) == [w.walks[0].rest[0]] + Popped(Resume(w).walks)
  {
    assert Resume(w).walks[1..] == w.walks[1..];
    assert w.walks[0].rest == [w.walks[0].rest[0]] + w.walks[0].rest[1..];
  }

  lemma ResumePlaces(w: Waiters, t: nat)
    requires CanResume(w)
    ensures Places(Resume(w), t) == Places(w, t)
  {
    var first: nat, rest: seq<nat> := w.walks[0].rest[0], Popped(Resume(w).walks);
    ResumePopped(w);
    assert multiset([first] + rest)[t] == (if t == first then 1 else 0) + multiset(rest)[t];
    assert multiset(w.resumed + [first])[t] == multiset(w.resumed)[t] + if t == first then 1 else 0;
  }

  lemma ResumeKeepsValid(w: Waiters)
    requires Valid(w) && CanResume(w)
    ensures Valid(Resume(w))
  {
    forall t: nat
      ensures Places(Resume(w), t) == Places(w, t)
    {
      ResumePlaces(w, t);
    }
    WalkShrinks(w.walks[0]);
    assert forall walk <- w.walks[1..] :: walk in w.walks;
  }

  lemma WalkShrinks(walk: Walk)
    requires walk.rest != [] && Increasing(walk.rest) && forall t <- walk.rest :: t < walk.limit
    ensures Increasing(walk.rest[1..]) && forall t <- walk.rest[1..] :: t < walk.limit
  {
    forall t <- walk.rest[1..]
      ensures t < walk.limit
    {
      assert t in walk.rest;
    }
  }

  lemma EndKeepsValid(w: Waiters)
    requires Valid(w) && CanEnd(w)
    ensures Valid(End(w)) && Popped(End(w).walks) == Popped(w.walks)
  {
    assert forall walk <- w.walks[1..] :: walk in w.walks;
    assert forall t: nat :: Places(End(w), t) == Places(w, t);
  }

  // ----- order -----

  /** Tickets that are increasing and each given out once are 0, 1, 2, and so on. */
  lemma {:induction false} FifoMeans(w: Waiters, k: nat)
    requires Valid(w) && Fifo(w) && k < |w.resumed + Waiting(w)|
    ensures (w.resumed + Waiting(w))[k] == k && |w.resumed + Waiting(w)| == w.parked
  {
    var all: seq<nat> := w.resumed + Waiting(w);
    forall t: nat
      ensures t in all <==> t < w.parked
    {
      assert multiset(all)[t] == Places(w, t);
      assert t in all <==> t in multiset(all);
    }
    IncreasingInterval(all, w.parked);
  }

  lemma {:induction false} IncreasingInterval(s: seq<nat>, n: nat)
    requires Increasing(s) && forall t: nat :: t in s <==> t < n
    ensures |s| == n && forall i :: 0 <= i < n ==> s[i] == i
    decreases n
  {
    if s == [] {
      assert n > 0 ==> n - 1 !in s;
    } else {
      var last := |s| - 1;
      assert s[last] in s;
      assert n - 1 in s;
      forall t: nat
        ensures t in s[..last] <==> t < n - 1
      {
        assert t in s <==> t in s[..last] || t == s[last];
      }
      IncreasingInterval(s[..last], n - 1);
    }
  }

  lemma ParkKeepsFifo(w: Waiters)
    requires Valid(w)
    ensures Fifo(Park(w)) <==> Fifo(w)
  {
    var all: seq<nat> := w.resumed + Waiting(w);
    assert Park(w).resumed + Waiting(Park(w)) == all + [w.parked];
    forall t <- all
      ensures t < w.parked
    {
      assert multiset(all)[t] == Places(w, t);
    }
    assert forall i :: 0 <= i < |all| ==> all[i] in all && (all + [w.parked])[i] == all[i];
  }

  lemma ResumeKeepsFifo(w: Waiters)
    requires Valid(w) && CanResume(w)
    ensures Fifo(Resume(w)) <==> Fifo(w)
  {
    ResumePopped(w);
    assert Resume(w).resumed + Waiting(Resume(w)) == w.resumed + Waiting(w);
  }

  lemma EndKeepsFifo(w: Waiters)
    requires Valid(w) && CanEnd(w)
    ensures Fifo(End(w)) <==> Fifo(w)
  {
    EndKeepsValid(w);
  }

  /** Popping keeps the order exactly when nobody waits in both places: popped before, and in the queue. */
  lemma PopAllKeepsFifo(w: Waiters)
    requires Valid(w) && Fifo(w)
    ensures Fifo(PopAll(w)) <==> Popped(w.walks) == [] || w.queue == []
  {
    PopAllKeepsValid(w);
    var popped, queue, n := Popped(w.walks), w.queue, |w.resumed|;
    var before, after := w.resumed + (popped + queue), w.resumed + (queue + popped);
    assert Waiting(PopAll(w)) == queue + popped;
    if popped == [] || queue == [] {
      assert before == after;
    } else {
      assert before[n] == popped[0] && before[n + |popped|] == queue[0];
      assert after[n] == queue[0] && after[n + |queue|] == popped[0];
    }
  }
}
