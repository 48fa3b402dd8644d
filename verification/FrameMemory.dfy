/** Coroutine frames allocated with a memory resource: operator new moves the resource behind the frame, and
operator delete has to find it there and to give back what was allocated. */
module FrameMemory {

  import opened Wrappers
  import opened Alignment

  type Resource = nat

  /** Size and alignment of the resource type; an empty one is not stored. */
  datatype Layout = Empty | Stored(size: nat, align: nat)

  /** What is allocated for a frame. */
  function Bytes(layout: Layout, frameSize: nat): nat
    requires layout.Stored? ==> layout.align > 0
  {
    if layout.Empty? then frameSize else AlignUp(layout.align, frameSize) + layout.size
  }

  /** Frame size and resource of a live frame. */
  datatype Frame = Frame(size: nat, resource: Resource)

  predicate Overlap(p: nat, m: nat, q: nat, n: nat) {
    p < q + n && q < p + m
  }

  class FrameHeap {
    const layout: Layout
    var blocks: map<nat, nat>         // what the resources have allocated, by address
    var onFrame: map<nat, Resource>   // the resources stored behind frames, by address
    ghost var frames: map<nat, Frame>

    ghost predicate Valid()
      reads this
    {
      && (layout.Stored? ==> layout.size > 0 && layout.align > 0)
      && frames.Keys == blocks.Keys
      && (forall p <- frames :: FrameInv(p, frames[p]))
      && (forall p <- blocks, q <- blocks :: p != q ==> !Overlap(p, blocks[p], q, blocks[q]))
    }

    /** The resource is behind the frame, inside the block. */
    ghost predicate FrameInv(p: nat, frame: Frame)
      requires layout.Stored? ==> layout.align > 0
      reads this
    {
      && p in blocks && blocks[p] == Bytes(layout, frame.size)
      && (layout.Stored? ==>
        var place := p + AlignUp(layout.align, frame.size);
        place in onFrame && onFrame[place] == frame.resource)
    }

    constructor (layout: Layout)
      requires layout.Stored? ==> layout.size > 0 && layout.align > 0
      ensures Valid() && frames == map[] && this.layout == layout
    {
      this.layout := layout;
      blocks, onFrame, frames := map[], map[], map[];
    }

    /** `at` is where the resource allocates: somewhere that overlaps no live block. */
    method New(frameSize: nat, resource: Resource, at: nat)
      requires Valid() && at !in blocks
      requires forall q <- blocks :: !Overlap(at, Bytes(layout, frameSize), q, blocks[q])
      modifies this
      ensures Valid() && frames == old(frames)[at := Frame(frameSize, resource)]
      ensures blocks == old(blocks)[at := if layout.Empty? then frameSize else AlignUp(layout.align, frameSize) + layout.size]
      ensures onFrame == if layout.Empty? then old(onFrame) else old(onFrame)[at + AlignUp(layout.align, frameSize) := resource]
    {
      if layout.Empty? {
        blocks := blocks[at := frameSize];
      } else {
        var size := AlignUp(layout.align, frameSize);
        blocks := blocks[at := size + layout.size];
        onFrame := onFrame[at + size := resource];
      }
      frames := frames[at := Frame(frameSize, resource)];
      forall p | p in old(frames)
        ensures FrameInv(p, frames[p])
      {
        assert old(FrameInv(p, frames[p])) && !Overlap(at, Bytes(layout, frameSize), p, blocks[p]);
      }
      assert FrameInv(at, frames[at]);
      forall p, q | p in blocks && q in blocks && p != q
        ensures !Overlap(p, blocks[p], q, blocks[q])
      {
        assert p != at && q != at ==> p in old(blocks) && q in old(blocks);
      }
    }

    /** Calls `deallocate` on the resource found behind the frame, which must be the one that the frame was
        allocated with, and passes back the block as it was allocated. */
    method Delete(p: nat, frameSize: nat) returns (resource: Option<Resource>, bytes: nat)
      requires Valid() && p in frames && frames[p].size == frameSize
      modifies this
      ensures Valid() && frames == old(frames) - {p} && blocks == old(blocks) - {p}
      ensures bytes == old(blocks[p]) == if layout.Empty? then frameSize else AlignUp(layout.align, frameSize) + layout.size
      ensures resource == if layout.Empty? then None else Some(old(frames[p]).resource)
    {
      assert FrameInv(p, frames[p]);
      if layout.Empty? {
        resource, bytes := None, frameSize;
      } else {
        var size := AlignUp(layout.align, frameSize);
        resource, bytes := Some(onFrame[p + size]), size + layout.size;
        onFrame := onFrame - {p + size};
      }
      blocks := blocks - {p};
      frames := frames - {p};
      forall q | q in frames
        ensures FrameInv(q, frames[q])
      {
        assert old(FrameInv(q, frames[q])) && !Overlap(p, old(blocks[p]), q, blocks[q]);
      }
    }
  }

  /** The frame ends before the resource, the resource ends with the block, and the resource is aligned, as
      operator delete asserts, exactly when the block is. */
  lemma ResourceIsBehindTheFrame(layout: Layout, p: nat, frameSize: nat)
    requires layout.Stored? && layout.align > 0
    ensures var place := p + AlignUp(layout.align, frameSize);
            && p + frameSize <= place && place + layout.size == p + Bytes(layout, frameSize)
            && (place % layout.align == 0 <==> p % layout.align == 0)
  {
    var align, size := layout.align, AlignUp(layout.align, frameSize);
    AlignUpIsLeast(align, frameSize, 0);
    var k, q, r := size / align, p / align, p % align;
    assert size == k * align + 0 && p == q * align + r;
    assert p + size == (q + k) * align + r by {
      assert (q + k) * align == q * align + k * align;
    }
    QuotientUnique((p + size) / align, (p + size) % align, q + k, r, align);
  }
}
