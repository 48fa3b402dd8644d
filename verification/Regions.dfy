/** What a stack resource is made of, as values: the regions it has taken so far and the allocations
that are live in them. `StackMemory` keeps these as its ghost state. */
module Regions {
  import opened Alignment

  const ALIGN: nat := 16
  const HEADER: nat := 32  // sizeof(chunk_header): four pointers

  /** A live allocation; `size` is the rounded one. */
  datatype Alloc = Alloc(ptr: int, size: nat)

  /** A piece of memory used from `b` up to `m`; what is live in it is listed oldest first. */
  datatype Region = Region(b: int, m: int, e: int, allocs: seq<Alloc>)

  /** The allocations fill `[b, m)` one after the other, without gaps. */
  ghost predicate Tiled(b: int, m: int, allocs: seq<Alloc>)
    decreases allocs
  {
    && m % ALIGN == 0
    && if allocs == [] then m == b
       else
         var last := allocs[|allocs| - 1];
         last.ptr + last.size == m && Tiled(b, last.ptr, allocs[..|allocs| - 1])
  }

  ghost predicate Sound(region: Region) {
    && 0 <= region.b <= region.m <= region.e
    && region.b % ALIGN == 0
    && Tiled(region.b, region.m, region.allocs)
  }

  /** Where the header of a heap block is, which is also where the block starts. */
  function Block(region: Region): int {
    region.b - HEADER
  }

  ghost predicate Apart(r: Region, s: Region) {
    r.e <= Block(s) || s.e <= Block(r)
  }

  /** A heap block clear of the initial buffer and of the address where that starts. */
  ghost predicate ClearOf(base: Region, r: Region) {
    && (base.e <= Block(r) || r.e <= base.b)
    && !(Block(r) <= base.b < r.e)
  }

  ghost predicate HeapBlocks(base: Region, blocks: seq<Region>) {
    && (forall i :: 0 <= i < |blocks| ==> Sound(blocks[i]) && 0 < Block(blocks[i]) && blocks[i].b < blocks[i].e)
    && (forall i :: 0 <= i < |blocks| ==> ClearOf(base, blocks[i]))
    && (forall i, j :: 0 <= i < j < |blocks| ==> Apart(blocks[i], blocks[j]))
  }

  /** The initial buffer, the blocks taken on top of it (oldest first) and the free ones. */
  ghost predicate WellFormed(base: Region, taken: seq<Region>, free: seq<Region>) {
    && Sound(base)
    && HeapBlocks(base, taken + free)
    && (forall i :: 0 <= i < |free| ==> free[i].allocs == [] && free[i].m == free[i].b)
  }

  function Listed(regions: seq<Region>): seq<Alloc> {
    if regions == [] then []
    else Listed(regions[..|regions| - 1]) + regions[|regions| - 1].allocs
  }

  /** Live allocations, oldest first. */
  function Live(base: Region, taken: seq<Region>): seq<Alloc> {
    base.allocs + Listed(taken)
  }

  /** The region new memory comes from. */
  function Current(base: Region, taken: seq<Region>): Region {
    if taken == [] then base else taken[|taken| - 1]
  }

  // ----- tiling -----

  lemma {:induction false} TiledWithin(b: int, m: int, allocs: seq<Alloc>, i: nat)
    requires Tiled(b, m, allocs) && i < |allocs|
    ensures b <= allocs[i].ptr && allocs[i].ptr + allocs[i].size <= m && allocs[i].ptr % ALIGN == 0
    decreases allocs
  {
    var last := |allocs| - 1;
    TiledGrows(b, allocs[last].ptr, allocs[..last]);
    if i < last {
      TiledWithin(b, allocs[last].ptr, allocs[..last], i);
    }
  }

  lemma {:induction false} TiledGrows(b: int, m: int, allocs: seq<Alloc>)
    requires Tiled(b, m, allocs)
    ensures b <= m
    decreases allocs
  {
    if allocs != [] {
      TiledGrows(b, allocs[|allocs| - 1].ptr, allocs[..|allocs| - 1]);
    }
  }

  lemma {:induction false} TiledOrdered(b: int, m: int, allocs: seq<Alloc>, i: nat, j: nat)
    requires Tiled(b, m, allocs) && i < j < |allocs|
    ensures allocs[i].ptr + allocs[i].size <= allocs[j].ptr
    decreases allocs
  {
    var last := |allocs| - 1;
    if j == last {
      TiledWithin(b, allocs[last].ptr, allocs[..last], i);
    } else {
      TiledOrdered(b, allocs[last].ptr, allocs[..last], i, j);
    }
  }

  lemma TiledPush(b: int, m: int, allocs: seq<Alloc>, size: nat)
    requires Tiled(b, m, allocs) && size % ALIGN == 0
    ensures Tiled(b, m + size, allocs + [Alloc(m, size)])
  {
    assert (allocs + [Alloc(m, size)])[..|allocs|] == allocs;
  }

  // ----- who owns a live allocation -----

  ghost predicate OneOf(region: Region, base: Region, taken: seq<Region>) {
    region == base || region in taken
  }

  lemma {:induction false} InSomeRegion(base: Region, taken: seq<Region>, alloc: Alloc) returns (owner: Region)
    requires alloc in Live(base, taken)
    ensures OneOf(owner, base, taken) && alloc in owner.allocs
  {
    if alloc in base.allocs {
      owner := base;
    } else {
      var last := |taken| - 1;
      if alloc in taken[last].allocs {
        owner := taken[last];
      } else {
        owner := InSomeRegion(base, taken[..last], alloc);
      }
    }
  }

  lemma AllocWithin(region: Region, alloc: Alloc)
    requires Sound(region) && alloc in region.allocs
    ensures region.b <= alloc.ptr && alloc.ptr + alloc.size <= region.m && alloc.ptr % ALIGN == 0
  {
    var i :| 0 <= i < |region.allocs| && region.allocs[i] == alloc;
    TiledWithin(region.b, region.m, region.allocs, i);
  }

  /** When the youngest chunk is empty, an allocation of an older one never looks as if it ended there:
      the header of the chunk lies between. */
  lemma NoFalseMatch(base: Region, taken: seq<Region>, free: seq<Region>, alloc: Alloc)
    requires WellFormed(base, taken, free) && taken != [] && taken[|taken| - 1].allocs == []
    requires alloc in Live(base, taken)
    ensures alloc.ptr != taken[|taken| - 1].m - alloc.size
  {
    var last := |taken| - 1;
    var current := (taken + free)[last];
    assert current == taken[last];
    var owner := InSomeRegion(base, taken, alloc);
    if owner == base {
      AllocWithin(base, alloc);
    } else {
      var k :| 0 <= k < |taken| && taken[k] == owner;
      assert (taken + free)[k] == owner && k != last;
      AllocWithin(owner, alloc);
      assert k < last && Apart((taken + free)[k], current);
    }
  }

  // ----- the live allocations as a stack -----

  lemma PushLive(base: Region, taken: seq<Region>, region: Region, alloc: Alloc)
    requires taken != [] && region.allocs == taken[|taken| - 1].allocs + [alloc]
    ensures Live(base, taken[|taken| - 1 := region]) == Live(base, taken) + [alloc]
  {
    var last := |taken| - 1;
    assert taken[last := region][..last] == taken[..last];
    assert Listed(taken[last := region]) == Listed(taken) + [alloc];
  }

  lemma AddRegion(base: Region, taken: seq<Region>, region: Region)
    ensures Live(base, taken + [region]) == Live(base, taken) + region.allocs
  {
    assert (taken + [region])[..|taken|] == taken;
  }

  lemma DropEmpty(base: Region, taken: seq<Region>)
    requires taken != [] && taken[|taken| - 1].allocs == []
    ensures Live(base, taken[..|taken| - 1]) == Live(base, taken)
  {
  }

  lemma TopOfLive(base: Region, taken: seq<Region>)
    requires Current(base, taken).allocs != []
    ensures Live(base, taken) != []
    ensures Live(base, taken)[|Live(base, taken)| - 1] == Current(base, taken).allocs[|Current(base, taken).allocs| - 1]
  {
  }

  // ----- what callers rely on -----

  ghost predicate Disjoint(a: Alloc, b: Alloc) {
    a.ptr + a.size <= b.ptr || b.ptr + b.size <= a.ptr
  }

  /** Every live allocation is aligned and in the used part of a region, and touches no chunk header. */
  lemma LiveIsSafe(base: Region, taken: seq<Region>, free: seq<Region>, alloc: Alloc)
    requires WellFormed(base, taken, free) && alloc in Live(base, taken)
    ensures alloc.ptr % ALIGN == 0
    ensures exists owner :: OneOf(owner, base, taken) && owner.b <= alloc.ptr && alloc.ptr + alloc.size <= owner.m
    ensures forall block <- taken + free ::
              alloc.ptr + alloc.size <= Block(block) || Block(block) + HEADER <= alloc.ptr
  {
    var owner := InSomeRegion(base, taken, alloc);
    assert owner != base ==> owner in taken + free;
    if owner == base {
      AllocWithin(base, alloc);
    } else {
      var k :| 0 <= k < |taken| && taken[k] == owner;
      assert (taken + free)[k] == owner;
      AllocWithin(owner, alloc);
    }
    forall block | block in taken + free
      ensures alloc.ptr + alloc.size <= Block(block) || Block(block) + HEADER <= alloc.ptr
    {
      OwnerIsClear(base, taken + free, owner, block);
    }
  }

  /** No region reaches into the header of a heap block. */
  lemma OwnerIsClear(base: Region, blocks: seq<Region>, owner: Region, block: Region)
    requires Sound(base) && HeapBlocks(base, blocks) && (owner == base || owner in blocks) && block in blocks
    ensures owner.m <= Block(block) || Block(block) + HEADER <= owner.b
  {
    var j :| 0 <= j < |blocks| && blocks[j] == block;
    if owner != base {
      var k :| 0 <= k < |blocks| && blocks[k] == owner;
      assert k < j ==> Apart(blocks[k], blocks[j]);
      assert j < k ==> Apart(blocks[j], blocks[k]);
    }
  }

  /** Live allocations never overlap. */
  lemma {:induction false} LiveDisjoint(base: Region, taken: seq<Region>, free: seq<Region>, i: nat, j: nat)
    requires WellFormed(base, taken, free) && i < j < |Live(base, taken)|
    ensures Disjoint(Live(base, taken)[i], Live(base, taken)[j])
  {
    if taken == [] {
      TiledOrdered(base.b, base.m, base.allocs, i, j);
    } else {
      var last := |taken| - 1;
      var top := taken[last];
      assert (taken + free)[last] == top;
      var older := Live(base, taken[..last]);
      assert Live(base, taken) == older + top.allocs;
      if j < |older| {
        Older(base, taken, free);
        LiveDisjoint(base, taken[..last], [], i, j);
      } else if i >= |older| {
        TiledOrdered(top.b, top.m, top.allocs, i - |older|, j - |older|);
      } else {
        var a, b := older[i], top.allocs[j - |older|];
        assert a in older && b in top.allocs;
        var owner := InSomeRegion(base, taken[..last], a);
        AllocWithin(top, b);
        if owner == base {
          AllocWithin(base, a);
        } else {
          var k :| 0 <= k < last && taken[k] == owner;
          assert (taken + free)[k] == owner;
          AllocWithin(owner, a);
          assert Apart((taken + free)[k], (taken + free)[last]);
        }
      }
    }
  }

  lemma Older(base: Region, taken: seq<Region>, free: seq<Region>)
    requires WellFormed(base, taken, free) && taken != []
    ensures WellFormed(base, taken[..|taken| - 1], [])
  {
    var older := taken[..|taken| - 1] + [];
    assert forall i :: 0 <= i < |older| ==> older[i] == (taken + free)[i];
  }

  // ----- regions changing hands -----

  lemma BlocksDiffer(base: Region, blocks: seq<Region>)
    requires HeapBlocks(base, blocks)
    ensures forall i, j :: 0 <= i < j < |blocks| ==> Block(blocks[i]) != Block(blocks[j])
  {
    forall i, j | 0 <= i < j < |blocks|
      ensures Block(blocks[i]) != Block(blocks[j])
    {
      assert Apart(blocks[i], blocks[j]);
    }
  }

  lemma NotTheInitialBuffer(base: Region, taken: seq<Region>, free: seq<Region>)
    requires WellFormed(base, taken, free)
    ensures taken != [] <==> Current(base, taken).b != base.b
  {
    if taken != [] {
      assert ClearOf(base, (taken + free)[|taken| - 1]);
    }
  }

  /** A chunk in use becomes the first of the freelist. */
  lemma Dropped(base: Region, taken: seq<Region>, free: seq<Region>)
    requires WellFormed(base, taken, free) && taken != []
    requires taken[|taken| - 1].allocs == [] && taken[|taken| - 1].m == taken[|taken| - 1].b
    ensures WellFormed(base, taken[..|taken| - 1], [taken[|taken| - 1]] + free)
  {
    assert taken[..|taken| - 1] + ([taken[|taken| - 1]] + free) == taken + free;
  }

  /** The used part of one region changes, the region stays where it is. */
  lemma Refilled(base: Region, blocks: seq<Region>, i: nat, region: Region)
    requires HeapBlocks(base, blocks) && i < |blocks|
    requires Sound(region) && region.b == blocks[i].b && region.e == blocks[i].e
    ensures HeapBlocks(base, blocks[i := region])
  {
  }

  /** Where the `i`-th element was before the `k`-th behind the first `n` was moved in front of them. */
  function Origin(n: nat, k: nat, i: nat): nat {
    if i < n || i > n + k then i else if i == n then n + k else i - 1
  }

  lemma Moved<T>(front: seq<T>, passed: seq<T>, x: T, rest: seq<T>, i: nat)
    requires i < |front| + 1 + |passed| + |rest|
    ensures Origin(|front|, |passed|, i) < |front| + 1 + |passed| + |rest|
    ensures (front + [x] + (passed + rest))[i] == (front + (passed + [x] + rest))[Origin(|front|, |passed|, i)]
  {
  }

  lemma Reordered(base: Region, front: seq<Region>, passed: seq<Region>, region: Region, rest: seq<Region>)
    requires HeapBlocks(base, front + (passed + [region] + rest))
    ensures HeapBlocks(base, front + [region] + (passed + rest))
  {
    var before, after := front + (passed + [region] + rest), front + [region] + (passed + rest);
    var n, k := |front|, |passed|;
    forall i | 0 <= i < |after|
      ensures Origin(n, k, i) < |before| && after[i] == before[Origin(n, k, i)]
    {
      Moved(front, passed, region, rest, i);
    }
    forall i, j | 0 <= i < j < |after|
      ensures Apart(after[i], after[j])
    {
      assert Apart(before[Origin(n, k, i)], before[Origin(n, k, j)]);
    }
  }

  /** The `k`-th free chunk is taken into use. */
  lemma Taken(base: Region, taken: seq<Region>, free: seq<Region>, k: nat, region: Region)
    requires WellFormed(base, taken, free) && k < |free|
    requires Sound(region) && region.b == free[k].b && region.e == free[k].e
    ensures WellFormed(base, taken + [region], free[..k] + free[k + 1..])
  {
    var blocks := taken + free;
    assert blocks == taken + (free[..k] + [free[k]] + free[k + 1..]);
    Reordered(base, taken, free[..k], free[k], free[k + 1..]);
    var moved := taken + [free[k]] + (free[..k] + free[k + 1..]);
    Refilled(base, moved, |taken|, region);
    assert moved[|taken| := region] == taken + [region] + (free[..k] + free[k + 1..]);
  }

  /** Room for a new heap block of `size` bytes at `address`: what the heap guarantees. */
  ghost predicate Fresh(base: Region, blocks: seq<Region>, address: int, size: nat) {
    && 0 < address && address % ALIGN == 0
    && ClearOf(base, Region(address + HEADER, address + HEADER, address + size, []))
    && forall i :: 0 <= i < |blocks| ==> blocks[i].e <= address || address + size <= Block(blocks[i])
  }

  /** A new chunk from the heap. */
  lemma Grown(base: Region, taken: seq<Region>, free: seq<Region>, region: Region)
    requires WellFormed(base, taken, free)
    requires Sound(region) && region.b < region.e
    requires Fresh(base, taken + free, Block(region), region.e - Block(region))
    ensures WellFormed(base, taken + [region], free)
  {
    var before, after := taken + free, taken + [region] + free;
    var n := |taken|;
    assert forall i :: 0 <= i < n ==> after[i] == before[i];
    assert forall i :: n < i < |after| ==> after[i] == before[i - 1];
    forall i, j | 0 <= i < j < |after|
      ensures Apart(after[i], after[j])
    {
      assert i < n < j ==> Apart(before[i], before[j - 1]);
      assert n < i ==> Apart(before[i - 1], before[j - 1]);
    }
  }

  function Bump(region: Region, size: nat): Region {
    Region(region.b, region.m + size, region.e, region.allocs + [Alloc(region.m, size)])
  }

  /** Bumping the current region by `size` bytes. */
  lemma Bumped(base: Region, taken: seq<Region>, free: seq<Region>, size: nat)
      returns (base': Region, taken': seq<Region>)
    requires WellFormed(base, taken, free)
    requires Current(base, taken).m + size <= Current(base, taken).e && size % ALIGN == 0
    ensures WellFormed(base', taken', free)
    ensures base'.b == base.b && base'.e == base.e && |taken'| == |taken|
    ensures forall i :: 0 <= i < |taken| ==> taken'[i].b == taken[i].b && taken'[i].e == taken[i].e
    ensures Current(base', taken') == Bump(Current(base, taken), size)
    ensures forall i :: 0 <= i < |taken| ==> Current(base', taken'[..i]) == Current(base, taken[..i])
    ensures Live(base', taken') == Live(base, taken) + [Alloc(Current(base, taken).m, size)]
  {
    var current := Current(base, taken);
    var region := Bump(current, size);
    var n := |taken|;
    assert n > 0 ==> (taken + free)[n - 1] == current;
    TiledPush(current.b, current.m, current.allocs, size);
    if taken == [] {
      base', taken' := region, [];
    } else {
      base', taken' := base, taken[n - 1 := region];
      Refilled(base, taken + free, n - 1, region);
      assert (taken + free)[n - 1 := region] == taken' + free;
      PushLive(base, taken, region, Alloc(current.m, size));
    }
  }

  // ----- heap blocks as a whole -----

  function Addresses(blocks: seq<Region>): (addresses: seq<int>)
    ensures |addresses| == |blocks|
    ensures forall i :: 0 <= i < |blocks| ==> addresses[i] == Block(blocks[i])
  {
    seq(|blocks|, i requires 0 <= i < |blocks| => Block(blocks[i]))
  }

  function Extents(blocks: seq<Region>): set<(int, int)> {
    set r | r in blocks :: (Block(r), r.e)
  }

  lemma ExtentsOf(before: seq<Region>, after: seq<Region>)
    requires |before| == |after|
    requires forall i :: 0 <= i < |before| ==> before[i].b == after[i].b && before[i].e == after[i].e
    ensures Extents(before) == Extents(after)
  {
    forall x | x in Extents(before)
      ensures x in Extents(after)
    {
      var i :| 0 <= i < |before| && x == (Block(before[i]), before[i].e);
      assert after[i] in after;
    }
    forall x | x in Extents(after)
      ensures x in Extents(before)
    {
      var i :| 0 <= i < |after| && x == (Block(after[i]), after[i].e);
      assert before[i] in before;
    }
  }

  lemma ExtentsConcat(a: seq<Region>, b: seq<Region>)
    ensures Extents(a + b) == Extents(a) + Extents(b)
  {
  }

  lemma ExtentsOfOne(r: Region)
    ensures Extents([r]) == {(Block(r), r.e)}
  {
    assert r in [r];
  }

  lemma MovedExtents(taken: seq<Region>, free: seq<Region>, k: nat, region: Region)
    requires k < |free| && region.b == free[k].b && region.e == free[k].e
    ensures Extents(taken + [region] + (free[..k] + free[k + 1..])) == Extents(taken + free)
  {
    ExtentsConcat(taken + [region], free[..k] + free[k + 1..]);
    ExtentsConcat(taken, [region]);
    ExtentsConcat(free[..k], free[k + 1..]);
    assert free == free[..k] + ([free[k]] + free[k + 1..]);
    ExtentsConcat(taken, free);
    ExtentsConcat(free[..k], [free[k]] + free[k + 1..]);
    ExtentsConcat([free[k]], free[k + 1..]);
    ExtentsOf([free[k]], [region]);
  }

  lemma AddedExtents(taken: seq<Region>, free: seq<Region>, region: Region)
    ensures Extents(taken + [region] + free) == Extents(taken + free) + {(Block(region), region.e)}
  {
    ExtentsConcat(taken + [region], free);
    ExtentsConcat(taken, [region]);
    ExtentsConcat(taken, free);
    ExtentsOfOne(region);
  }

  // ----- deallocation -----

  /** When the current region does not end with the youngest live allocation, it is an empty chunk. */
  lemma TopIsCurrent(base: Region, taken: seq<Region>, free: seq<Region>, alloc: Alloc)
    requires WellFormed(base, taken, free)
    requires Live(base, taken) != [] && Live(base, taken)[|Live(base, taken)| - 1] == alloc
    requires alloc.ptr != Current(base, taken).m - alloc.size
    ensures taken != [] && Current(base, taken).allocs == [] && Current(base, taken).b == Current(base, taken).m
  {
    var current := Current(base, taken);
    assert taken != [] ==> (taken + free)[|taken| - 1] == current;
    if current.allocs != [] {
      TopOfLive(base, taken);
    }
  }

  /** When it does, the allocation is its own. */
  lemma TopInCurrent(base: Region, taken: seq<Region>, free: seq<Region>, alloc: Alloc)
    requires WellFormed(base, taken, free)
    requires Live(base, taken) != [] && Live(base, taken)[|Live(base, taken)| - 1] == alloc
    requires alloc.ptr == Current(base, taken).m - alloc.size
    ensures Current(base, taken).allocs != []
    ensures Current(base, taken).allocs[|Current(base, taken).allocs| - 1] == alloc
  {
    if Current(base, taken).allocs == [] {
      assert alloc in Live(base, taken);
      NoFalseMatch(base, taken, free, alloc);
    } else {
      TopOfLive(base, taken);
    }
  }

  /** For the youngest live allocation, what the loop of deallocate asks is answered yes exactly at the
      first region with a live allocation in it. */
  lemma StopsAtItsRegion(base: Region, taken: seq<Region>, free: seq<Region>, alloc: Alloc)
    requires WellFormed(base, taken, free)
    requires Live(base, taken) != [] && Live(base, taken)[|Live(base, taken)| - 1] == alloc
    ensures alloc.ptr == Current(base, taken).m - alloc.size <==> Current(base, taken).allocs != []
    ensures Current(base, taken).allocs != [] ==>
              Current(base, taken).allocs[|Current(base, taken).allocs| - 1] == alloc
  {
    if alloc.ptr == Current(base, taken).m - alloc.size {
      TopInCurrent(base, taken, free, alloc);
    } else {
      TopIsCurrent(base, taken, free, alloc);
    }
  }

  function Unbump(region: Region): Region
    requires region.allocs != []
  {
    var last := region.allocs[|region.allocs| - 1];
    Region(region.b, region.m - last.size, region.e, region.allocs[..|region.allocs| - 1])
  }

  /** Taking the youngest allocation back out of the current region. */
  lemma Unbumped(base: Region, taken: seq<Region>, free: seq<Region>)
      returns (base': Region, taken': seq<Region>)
    requires WellFormed(base, taken, free) && Current(base, taken).allocs != []
    ensures WellFormed(base', taken', free)
    ensures base'.b == base.b && base'.e == base.e && |taken'| == |taken|
    ensures forall i :: 0 <= i < |taken| ==> taken'[i].b == taken[i].b && taken'[i].e == taken[i].e
    ensures Current(base', taken') == Unbump(Current(base, taken))
    ensures forall i :: 0 <= i < |taken| ==> Current(base', taken'[..i]) == Current(base, taken[..i])
    ensures Live(base', taken') == Live(base, taken)[..|Live(base, taken)| - 1]
  {
    var current := Current(base, taken);
    var region := Unbump(current);
    var n := |taken|;
    assert n > 0 ==> (taken + free)[n - 1] == current;
    TiledGrows(region.b, region.m, region.allocs);
    if taken == [] {
      base', taken' := region, [];
    } else {
      base', taken' := base, taken[n - 1 := region];
      Refilled(base, taken + free, n - 1, region);
      assert (taken + free)[n - 1 := region] == taken' + free;
      var last := current.allocs[|current.allocs| - 1];
      assert current.allocs == region.allocs + [last];
      assert taken'[n - 1 := current] == taken;
      PushLive(base, taken', current, last);
    }
  }

  function Emptied(region: Region): Region {
    Region(region.b, region.b, region.e, [])
  }

  lemma EmptiedTop(base: Region, taken: seq<Region>, free: seq<Region>)
    requires WellFormed(base, taken, free) && taken != []
    ensures WellFormed(base, taken[|taken| - 1 := Emptied(taken[|taken| - 1])], free)
    ensures forall i :: 0 <= i < |taken| ==>
      Current(base, taken[|taken| - 1 := Emptied(taken[|taken| - 1])][..i]) == Current(base, taken[..i])
  {
    var n := |taken| - 1;
    var region := Emptied(taken[n]);
    assert (taken + free)[n] == taken[n];
    Refilled(base, taken + free, n, region);
    assert (taken + free)[n := region] == taken[n := region] + free;
  }
}
