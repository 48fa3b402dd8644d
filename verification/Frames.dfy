/** Coroutine frames and the chain in which `elements_of` splices them, for generators and channels alike.

A frame is a `Promise` object together with the part of its body that has not run yet; `C` is the type
of what consumes its values. */
module Frames {
  import opened Scripts

  /** The union in the promise: the consumer of a root, or the owner of an attached leaf. */
  datatype Link<C> = Unset | Consumer(consumer: C) | Owner(promise: Promise<C>)

  class Promise<C> {
    var root: Promise<C>
    var currentWorker: Promise<C>
    var link: Link<C>
    var body: Body
    var done: bool

    constructor (body: Body)
      ensures root == this && currentWorker == this && link == Unset
      ensures this.body == body && !done
    {
      root, currentWorker, link := this, this, Unset;
      this.body, done := body, false;
    }

    method SkipThisLeaf()
      requires root != this && link.Owner? && link.promise != this
      modifies link.promise`root, root`currentWorker
      ensures link.promise.root == root
      ensures root.currentWorker == link.promise
    {
      var owner := link.promise;
      owner.root := root;
      root.currentWorker := owner;
    }
  }

  /** The awaiter of `co_yield elements_of(..)`: splices the chain of `leafTop` in front of `owner`.
      Of the leaf's frames only the active one learns the new root. */
  method AttachLeaf<C>(leafTop: Promise<C>, owner: Promise<C>) returns (next: Promise<C>)
    requires owner.root != leafTop
    modifies leafTop.currentWorker`root, leafTop`link, owner.root`currentWorker
    ensures next == old(leafTop.currentWorker) && next.root == old(owner.root)
    ensures leafTop.link == Owner(owner)
    ensures old(owner.root).currentWorker == next
  {
    var rootPromise := owner.root;
    leafTop.currentWorker.root := rootPromise;
    leafTop.link := Owner(owner);
    rootPromise.currentWorker := leafTop.currentWorker;
    next := leafTop.currentWorker;
  }

  /** Every frame behind the root points to the frame that waits for it. */
  ghost predicate Owned<C>(chain: seq<Promise<C>>)
    reads chain`link
  {
    forall i {:trigger chain[i].link} :: 0 < i < |chain| ==> chain[i].link == Owner(chain[i - 1])
  }

  /** ... and the root does not point to a frame. */
  ghost predicate Rooted<C>(chain: seq<Promise<C>>)
    reads chain`link
  {
    Owned(chain) && (chain != [] ==> !chain[0].link.Owner?)
  }

  /** The unfinished frames behind the root `top`, from it to the active one. Only the active frame
      has to know the root: the `root` fields of the frames between may be stale. */
  ghost predicate Stacked<C>(top: Promise?<C>, chain: seq<Promise<C>>, bodies: seq<Body>)
    reads (if top == null then {} else {top})`done, chain`done, chain`root, chain`currentWorker, chain`body
  {
    && (top == null ==> chain == [])
    && (top != null ==> (top.done <==> chain == []))
    && (chain != [] ==>
      && chain[0] == top
      && top.root == top == chain[|chain| - 1].root
      && top.currentWorker == chain[|chain| - 1])
    && (forall i :: 0 <= i < |chain| ==> !chain[i].done)
    && |bodies| == |chain|
    && (forall i :: 0 <= i < |chain| ==> bodies[i] == chain[i].body)
  }

  /** The frame `steps` owners away from `from`, null when there are not that many. */
  ghost function Walk<C>(from: Promise<C>, steps: nat): Promise?<C>
    reads *
  {
    if steps == 0 then from
    else if from.link.Owner? then Walk(from.link.promise, steps - 1)
    else null
  }

  lemma {:induction false} WalkFurther<C>(from: Promise<C>, steps: nat)
    ensures Walk(from, steps + 1) ==
            var last := Walk(from, steps);
            if last != null && last.link.Owner? then last.link.promise else null
  {
    if steps > 0 && from.link.Owner? {
      WalkFurther(from.link.promise, steps - 1);
    }
  }

  /** Owner links lead down to the root and never come back: no frame is on the chain twice. */
  lemma {:induction false} Acyclic<C>(chain: seq<Promise<C>>, i: nat, j: nat)
    requires Rooted(chain) && i < j < |chain|
    ensures chain[i] != chain[j]
  {
    assert chain[j].link == Owner(chain[j - 1]);
    if i > 0 {
      Acyclic(chain, i - 1, j - 1);
      assert chain[i].link == Owner(chain[i - 1]);
    }
  }

  /** Following the owners from the active frame leads through the whole chain to the root. */
  lemma {:induction false} OwnersLeadToRoot<C>(chain: seq<Promise<C>>, steps: nat)
    requires Rooted(chain) && steps < |chain|
    ensures Walk(chain[|chain| - 1], steps) == chain[|chain| - 1 - steps]
  {
    if steps > 0 {
      OwnersLeadToRoot(chain, steps - 1);
      WalkFurther(chain[|chain| - 1], steps - 1);
      assert chain[|chain| - steps].link == Owner(chain[|chain| - 1 - steps]);
    }
  }

  /** What holds in every state between two calls: the active frame knows the root, which knows it, and
      the chain of owners from it ends at that root without a cycle. */
  lemma ActiveFrameFindsRoot<C>(top: Promise<C>, chain: seq<Promise<C>>, bodies: seq<Body>)
    requires Stacked(top, chain, bodies) && Rooted(chain) && !top.done
    ensures !top.currentWorker.done && top.currentWorker.root == top
    ensures Walk(top.currentWorker, |chain| - 1) == top && !top.link.Owner?
    ensures forall i, j :: 0 <= i < j < |chain| ==> chain[i] != chain[j]
  {
    OwnersLeadToRoot(chain, |chain| - 1);
    forall i, j | 0 <= i < j < |chain|
      ensures chain[i] != chain[j]
    {
      Acyclic(chain, i, j);
    }
  }

  lemma ActiveFrameOnce<C>(chain: seq<Promise<C>>)
    requires Rooted(chain) && chain != []
    ensures forall i :: 0 <= i < |chain| - 1 ==> chain[i] != chain[|chain| - 1]
  {
    forall i | 0 <= i < |chain| - 1
      ensures chain[i] != chain[|chain| - 1]
    {
      Acyclic(chain, i, |chain| - 1);
    }
  }

  /** Chains with different roots share no frame. */
  lemma {:induction false} Apart<C>(chain: seq<Promise<C>>, other: seq<Promise<C>>, i: nat, j: nat)
    requires Rooted(chain) && Rooted(other) && i < |chain| && j < |other| && chain[0] != other[0]
    ensures chain[i] != other[j]
  {
    if i > 0 && j > 0 {
      Apart(chain, other, i - 1, j - 1);
      assert chain[i].link == Owner(chain[i - 1]) && other[j].link == Owner(other[j - 1]);
    } else {
      assert i > 0 ==> chain[i].link.Owner?;
      assert j > 0 ==> other[j].link.Owner?;
    }
  }

  /** Writing to the leaf's root and active frame touches no frame of this chain, and to this chain's root
      no frame of the leaf. */
  lemma LeafApart<C>(chain: seq<Promise<C>>, leaf: seq<Promise<C>>)
    requires Rooted(chain) && Rooted(leaf) && chain != [] && leaf != [] && chain[0] != leaf[0]
    ensures forall i :: 0 <= i < |chain| ==> chain[i] != leaf[0] && chain[i] != leaf[|leaf| - 1]
    ensures forall j :: 0 < j < |leaf| ==> leaf[j] != leaf[0]
    ensures forall j :: 0 <= j < |leaf| ==> leaf[j] != chain[0]
  {
    forall i | 0 <= i < |chain|
      ensures chain[i] != leaf[0] && chain[i] != leaf[|leaf| - 1]
    {
      Apart(chain, leaf, i, 0);
      Apart(chain, leaf, i, |leaf| - 1);
    }
    forall j | 0 <= j < |leaf|
      ensures leaf[j] != chain[0] && (j > 0 ==> leaf[j] != leaf[0])
    {
      Apart(chain, leaf, 0, j);
      assert j > 0 ==> leaf[j].link.Owner?;
    }
  }

  /** The frames of `leaf`, stale or not, go on top of the frames of `chain`, whose active frame `owner` is. */
  method Splice<C>(top: Promise<C>, ghost chain: seq<Promise<C>>, ghost bodies: seq<Body>, owner: Promise<C>,
                   leafTop: Promise<C>, ghost leaf: seq<Promise<C>>, ghost leafBodies: seq<Body>)
      returns (next: Promise<C>)
    requires Stacked(top, chain, bodies) && Rooted(chain) && chain != [] && owner == chain[|chain| - 1]
    requires Stacked(leafTop, leaf, leafBodies) && Rooted(leaf) && leaf != [] && top != leafTop
    modifies leafTop.currentWorker`root, leafTop`link, top`currentWorker
    ensures Stacked(top, chain + leaf, bodies + leafBodies) && Rooted(chain + leaf)
    ensures top.link == old(top.link) && next == leaf[|leaf| - 1]
  {
    LeafApart(chain, leaf);
    next := AttachLeaf(leafTop, owner);
  }
}
