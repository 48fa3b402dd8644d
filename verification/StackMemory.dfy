/** `stack_resource`: a stack allocator over an initial buffer and chunks taken from the heap.

Addresses are integers, null is 0. `headers` is the memory under the chunk headers: while a chunk is
in use its header keeps the state of the chunk below, while it is free it keeps its own. */
module StackMemory {
  import opened Wrappers
  import opened Alignment
  import opened Regions

  datatype Header = Header(b: int, m: int, e: int, freelistNext: int)

  class StackResource {
    var data: int   // the initial buffer
    var length: nat
    var b: int
    var m: int
    var e: int
    var top: int    // of the freelist
    var headers: map<int, Header>

    ghost var base: Region
    ghost var taken: seq<Region>  // chunks in use above the initial buffer, oldest first
    ghost var free: seq<Region>   // the freelist, top first

    ghost predicate Valid()
      reads this
    {
      Consistent(data, length, b, m, e, top, headers, base, taken, free)
    }

    ghost function Allocations(): seq<Alloc>
      reads this
    {
      Live(base, taken)
    }

    /** The caller's bytes from the first aligned address on, or none if they end before it. */
    constructor (address: nat, size: nat)
      ensures Valid() && Allocations() == [] && taken == [] && free == [] && m == b == data && data % ALIGN == 0
      ensures if AlignUp(ALIGN, address) <= address + size
              then data == AlignUp(ALIGN, address) && data + length == address + size
              else data == 0 && length == 0
      ensures base == Region(data, data, data + length, [])
    {
      var span := AlignSpan(address, size);
      AlignUpIsLeast(ALIGN, address, 0);
      data, length := span.0, span.1;
      b, m, e, top, headers := span.0, span.0, span.0 + span.1, 0, map[];
      base, taken, free := Region(span.0, span.0, span.0 + span.1, []), [], [];
    }

    // ----- chunks -----

    /** The state of the chunk below comes back; the current one goes to the freelist with its own. */
    method DropCurChunk()
      requires Valid() && taken != [] && b == m && taken[|taken| - 1].allocs == []
      modifies this
      ensures Valid() && data == old(data) && length == old(length) && base == old(base)
      ensures taken == old(taken)[..|old(taken)| - 1] && free == [old(taken)[|old(taken)| - 1]] + old(free)
      ensures Allocations() == old(Allocations()) && taken + free == old(taken + free)
    {
      ghost var last := taken[|taken| - 1];
      assert taken[..|taken| - 1] + ([last] + free) == taken + free;
      DroppedHeaders(headers, base, taken, free);
      Dropped(base, taken, free);
      DropEmpty(base, taken);
      var chunk := b - HEADER;
      var header := headers[chunk];
      headers := headers[chunk := Header(b, m, e, top)];
      b, m, e, top := header.b, header.m, header.e, chunk;
      taken, free := taken[..|taken| - 1], [last] + free;
    }

    /** Unlinks the first free chunk of at least `bytes` bytes, null when there is none. */
    method TakeAtLeast(bytes: nat) returns (chunk: int, ghost k: nat)
      requires Valid()
      modifies `top, `headers
      ensures k <= |free| && forall j :: 0 <= j < k ==> free[j].e - free[j].b < bytes
      ensures k == |free| ==> chunk == 0 && top == old(top) && headers == old(headers)
      ensures k < |free| ==>
        && chunk == Block(free[k]) && bytes <= free[k].e - free[k].b && FreeBounds(headers, free[k])
        && top == Link(Without(free, k), 0) && FreeHeaders(headers, Without(free, k))
        && SameStates(old(headers), headers)
    {
      var prev := 0;
      chunk, k := top, 0;
      OtherHeaders(base, taken, free);
      while chunk != 0
        invariant k <= |free| && chunk == Link(free, k)
        invariant prev == if k == 0 then 0 else Block(free[k - 1])
        invariant forall j :: 0 <= j < k ==> free[j].e - free[j].b < bytes
        decreases |free| - k
      {
        assert FreeHeader(headers, free, k);
        var header := headers[chunk];
        if header.e - header.b >= bytes {
          Unlinked(headers, free, k);
          if prev != 0 {
            assert FreeHeader(headers, free, k - 1);
            headers := headers[prev := headers[prev].(freelistNext := header.freelistNext)];
          } else {
            top := header.freelistNext;
          }
          return;
        }
        prev, chunk := chunk, header.freelistNext;
        k := k + 1;
      }
    }

    // ----- allocation -----

    /** Bytes of a new chunk: at least twice the current size. */
    function Growth(size: nat): int
      reads this
    {
      (size + (e - b) + length) * 2
    }

    /** The current chunk has room. */
    method Bump(size: nat) returns (ptr: int)
      requires Valid() && size % ALIGN == 0 && e - m >= size
      modifies this
      ensures Valid() && data == old(data) && length == old(length) && free == old(free)
      ensures Chunks() == old(Chunks())
      ensures ptr == old(m) && Allocations() == old(Allocations()) + [Alloc(ptr, size)]
    {
      ghost var base', taken' := Bumped(base, taken, free, size);
      OnlyBumpMoves(data, length, b, m, e, top, headers, base, taken, free, m + size, base', taken');
      ptr, m := m, m + size;
      base, taken := base', taken';
    }

    /** Puts `chunk` on top of the chunks in use: the state of the chunk below goes into its header, and
        its first `size` bytes are handed out. */
    method TakeInUse(chunk: int, capacity: nat, size: nat, ghost region: Region, ghost rest: seq<Region>)
      requires Sound(base) && Bounds(Current(base, taken), b, m, e) && base.b == data && base.e == data + length
      requires WellFormed(base, taken + [region], rest)
      requires region == FirstIn(chunk, capacity, size)
      requires top == Link(rest, 0) && TakenHeaders(headers, base, taken) && FreeHeaders(headers, rest)
      modifies this
      ensures Valid() && data == old(data) && length == old(length) && b == chunk + HEADER
      ensures base == old(base) && taken == old(taken) + [region] && free == rest
      ensures Allocations() == old(Allocations()) + [Alloc(chunk + HEADER, size)]
    {
      var link := if chunk in headers then headers[chunk].freelistNext else 0;
      PushedHeaders(headers, base, taken, rest, region, Header(b, m, e, link));
      AddRegion(base, taken, region);
      headers := headers[chunk := Header(b, m, e, link)];
      b, m, e := chunk + HEADER, chunk + HEADER + size, chunk + HEADER + capacity;
      taken, free := taken + [region], rest;
    }

    /** The first free chunk that is large enough, if there is one. */
    method FromFreelist(size: nat) returns (ptr: Option<int>)
      requires Valid() && size % ALIGN == 0
      modifies this
      ensures Valid() && data == old(data) && length == old(length) && Chunks() == old(Chunks())
      ensures ptr == None <==> forall i :: 0 <= i < |old(free)| ==> old(free)[i].e - old(free)[i].b < size
      ensures ptr == None ==> unchanged(this)
      ensures ptr.Some? ==> FirstFit(old(free), size, ptr.value)
      ensures ptr.Some? ==> Allocations() == old(Allocations()) + [Alloc(ptr.value, size)]
    {
      OtherHeaders(base, taken, free);
      var chunk, k := TakeAtLeast(size);
      if chunk == 0 {
        return None;
      }
      assert free[k] == (taken + free)[|taken| + k];
      KeptTaken(old(headers), headers, base, taken);
      var capacity := headers[chunk].e - headers[chunk].b;
      ghost var region := FirstIn(chunk, capacity, size);
      FirstAlloc(region.b, size);
      Taken(base, taken, free, k, region);
      MovedExtents(taken, free, k, region);
      assert FirstFit(free, size, free[k].b);
      TakeInUse(chunk, capacity, size, region, Without(free, k));
      return Some(b);
    }

    /** A new chunk in the block `address` that `operator new` returned. */
    method FromHeap(size: nat, address: int) returns (ptr: int)
      requires Valid() && size % ALIGN == 0 && 0 < size <= Growth(size)
      requires Fresh(base, taken + free, address, HEADER + Growth(size))
      modifies this
      ensures Valid() && data == old(data) && length == old(length)
      ensures ptr == address + HEADER && Chunks() == old(Chunks()) + {(address, address + HEADER + 2 * (size + old(e - b) + length))}
      ensures Allocations() == old(Allocations()) + [Alloc(ptr, size)]
    {
      var capacity := Growth(size);
      ghost var region := FirstIn(address, capacity, size);
      FirstAlloc(region.b, size);
      Grown(base, taken, free, region);
      AddedExtents(taken, free, region);
      TakeInUse(address, capacity, size, region, free);
      return b;
    }

    /** The current chunk has no room: another chunk goes on top, from the freelist or from the heap. */
    method FromOtherChunk(size: nat, heap: Option<int>) returns (ptr: Option<int>)
      requires Valid() && size % ALIGN == 0 && e - m < size && 0 < size <= Growth(size)
      requires heap.Some? ==> Fresh(base, taken + free, heap.value, HEADER + Growth(size))
      modifies this
      ensures Valid() && data == old(data) && length == old(length)
      ensures ptr.Some? ==> Allocations() == old(Allocations()) + [Alloc(ptr.value, size)]
      ensures old(HasRoom(size)) ==> ptr.Some? && Chunks() == old(Chunks()) && FirstFit(old(free), size, ptr.value)
      ensures !old(HasRoom(size)) ==> if heap == None then ptr == None && unchanged(this) else
        && ptr == Some(heap.value + HEADER)
        && Chunks() == old(Chunks()) + {(heap.value, heap.value + HEADER + 2 * (size + old(e - b) + length))}
    {
      ptr := FromFreelist(size);
      if ptr == None && heap.Some? {
        var p := FromHeap(size, heap.value);
        ptr := Some(p);
      }
    }

    /** `heap` is the block `operator new` returns if it is asked for one, nothing when it throws. */
    method Allocate(len: nat, heap: Option<int>) returns (ptr: Option<int>)
      requires Valid()
      requires heap.Some? ==> Growth(AlignUp(ALIGN, len)) >= 0
      requires heap.Some? ==> Fresh(base, taken + free, heap.value, HEADER + Growth(AlignUp(ALIGN, len)))
      modifies this
      ensures Valid() && data == old(data) && length == old(length)
      ensures ptr.Some? ==> Allocations() == old(Allocations()) + [Alloc(ptr.value, AlignUp(ALIGN, len))]
      ensures old(HasRoom(AlignUp(ALIGN, len))) ==> ptr.Some? && Chunks() == old(Chunks())
      ensures old(HasRoom(AlignUp(ALIGN, len))) ==>
        if old(e - m) >= AlignUp(ALIGN, len) then ptr.value == old(m) else FirstFit(old(free), AlignUp(ALIGN, len), ptr.value)
      ensures !old(HasRoom(AlignUp(ALIGN, len))) ==> if heap == None then ptr == None && unchanged(this) else
        && ptr == Some(heap.value + HEADER)
        && Chunks() == old(Chunks()) + {(heap.value, heap.value + HEADER + 2 * (AlignUp(ALIGN, len) + old(e - b) + length))}
    {
      var size := AlignUp(ALIGN, len);
      assert size % ALIGN == 0 by {
        AlignUpIsLeast(ALIGN, len, 0);
      }
      ptr := AllocateAligned(size, heap);
    }

    method AllocateAligned(size: nat, heap: Option<int>) returns (ptr: Option<int>)
      requires Valid() && size % ALIGN == 0
      requires heap.Some? ==> Growth(size) >= 0 && Fresh(base, taken + free, heap.value, HEADER + Growth(size))
      modifies this
      ensures Valid() && data == old(data) && length == old(length)
      ensures ptr.Some? ==> Allocations() == old(Allocations()) + [Alloc(ptr.value, size)]
      ensures old(HasRoom(size)) ==> ptr.Some? && Chunks() == old(Chunks())
      ensures old(HasRoom(size)) ==> if old(e - m) >= size then ptr.value == old(m) else FirstFit(old(free), size, ptr.value)
      ensures !old(HasRoom(size)) ==> if heap == None then ptr == None && unchanged(this) else
        && ptr == Some(heap.value + HEADER)
        && Chunks() == old(Chunks()) + {(heap.value, heap.value + HEADER + 2 * (size + old(e - b) + length))}
    {
      CurrentInOrder(base, taken, free);
      if e - m >= size {
        var p := Bump(size);
        return Some(p);
      }
      ptr := FromOtherChunk(size, heap);
    }

    /** Memory for `size` bytes can be had without the heap. */
    ghost predicate HasRoom(size: nat)
      reads this
    {
      e - m >= size || exists i :: 0 <= i < |free| && free[i].e - free[i].b >= size
    }

    /** Addresses and ends of the heap blocks this resource owns. */
    ghost function Chunks(): set<(int, int)>
      reads this
    {
      Extents(taken + free)
    }

    // ----- deallocation -----

    method Unwind(size: nat)
      requires Valid() && Current(base, taken).allocs != []
      requires Current(base, taken).allocs[|Current(base, taken).allocs| - 1].size == size
      modifies this
      ensures Valid() && data == old(data) && length == old(length) && Chunks() == old(Chunks())
      ensures |taken| == |old(taken)| && old(Allocations()) != []
      ensures Allocations() == old(Allocations())[..|old(Allocations())| - 1]
    {
      ghost var base', taken' := Unbumped(base, taken, free);
      TopOfLive(base, taken);
      OnlyBumpMoves(data, length, b, m, e, top, headers, base, taken, free, m - size, base', taken');
      m := m - size;
      base, taken := base', taken';
    }

    /** Only the youngest live allocation may be given back. Chunks in which nothing is live any more are
        dropped on the way down to it. */
    method Deallocate(ptr: int, len: nat)
      requires Valid() && Allocations() != []
      requires Allocations()[|Allocations()| - 1] == Alloc(ptr, AlignUp(ALIGN, len))
      modifies this
      ensures Valid() && data == old(data) && length == old(length) && Chunks() == old(Chunks())
      ensures Allocations() == old(Allocations())[..|old(Allocations())| - 1]
      ensures |taken| <= |old(taken)|
      ensures forall i :: |taken| <= i < |old(taken)| ==> old(taken)[i].allocs == []
    {
      var size := AlignUp(ALIGN, len);
      while ptr != m - size
        invariant Valid() && data == old(data) && length == old(length) && Chunks() == old(Chunks())
        invariant base == old(base) && |taken| <= |old(taken)| && taken == old(taken)[..|taken|]
        invariant forall i :: |taken| <= i < |old(taken)| ==> old(taken)[i].allocs == []
        invariant Allocations() == old(Allocations())
        decreases |taken|
      {
        TopIsCurrent(base, taken, free, Alloc(ptr, size));
        DropCurChunk();
      }
      TopInCurrent(base, taken, free, Alloc(ptr, size));
      Unwind(size);
    }

    /** Forgets what is live in the current chunk. */
    method Rewind()
      requires Valid() && taken != []
      modifies `m, `taken
      ensures Valid() && |taken| == |old(taken)| && m == b && taken[|taken| - 1].allocs == []
      ensures Extents(taken + free) == old(Extents(taken + free))
      ensures Addresses(taken + free) == old(Addresses(taken + free))
    {
      EmptiedTop(base, taken, free);
      ghost var emptied := taken[|taken| - 1 := Emptied(taken[|taken| - 1])];
      BumpedHeaders(headers, base, taken, base, emptied);
      ExtentsOf(taken + free, emptied + free);
      m := b;
      taken := emptied;
    }

    /** Drops the current chunk whatever is still live in it. */
    method DiscardCurChunk()
      requires Valid() && taken != []
      modifies this
      ensures Valid() && data == old(data) && length == old(length) && Chunks() == old(Chunks())
      ensures base == old(base) && |taken| == |old(taken)| - 1
      ensures Addresses(taken + free) == old(Addresses(taken + free))
    {
      Rewind();
      DropCurChunk();
    }

    /** Gives all chunks to the freelist. Nothing is rewound inside the initial buffer. */
    method ReuseMemory()
      requires Valid()
      modifies this
      ensures Valid() && data == old(data) && length == old(length) && Chunks() == old(Chunks())
      ensures taken == [] && base == old(base) && Allocations() == old(base).allocs
      ensures m == old(base).m
      ensures Addresses(taken + free) == old(Addresses(taken + free))
    {
      NotTheInitialBuffer(base, taken, free);
      while b != data
        invariant Valid() && data == old(data) && length == old(length) && Chunks() == old(Chunks())
        invariant base == old(base) && Addresses(taken + free) == old(Addresses(taken + free))
        invariant taken != [] <==> b != data
        decreases |taken|
      {
        DiscardCurChunk();
        NotTheInitialBuffer(base, taken, free);
      }
    }

    // ----- end of life and moves -----

    /** `delete[]` of every free chunk; a header is never read after its chunk was freed. */
    method DropAll() returns (freed: seq<int>)
      requires Valid()
      modifies `top, `headers, `free
      ensures freed == Addresses(old(free)) && free == [] && top == 0
    {
      freed := [];
      OtherHeaders(base, taken, free);
      ghost var n := 0;
      while top != 0
        invariant n <= |old(free)| && free == old(free)[n..] && freed == Addresses(old(free)[..n])
        invariant top == Link(free, 0) && FreeHeaders(headers, free)
        decreases |free|
      {
        DeletedHeader(headers, free);
        var next := headers[top].freelistNext;
        freed := freed + [top];
        headers := headers - {top};
        top := next;
        free, n := free[1..], n + 1;
        assert freed == Addresses(old(free)[..n]);
      }
      assert old(free)[..n] == old(free);
    }

    /** The destructor: every heap block is freed, and none twice. */
    method Destroy() returns (freed: seq<int>)
      requires Valid()
      modifies this
      ensures freed == old(Addresses(taken + free))
      ensures forall i, j :: 0 <= i < j < |freed| ==> freed[i] != freed[j]
    {
      BlocksDiffer(base, taken + free);
      ReuseMemory();
      assert taken + free == free;
      freed := DropAll();
    }

    /** The moved-from resource is left without memory. */
    method TakeOver(other: StackResource)
      requires other.Valid() && other != this
      modifies this, other
      ensures Valid() && Allocations() == old(other.Allocations()) && Chunks() == old(other.Chunks())
      ensures data == old(other.data) && length == old(other.length)
      ensures b == old(other.b) && m == old(other.m) && e == old(other.e) && top == old(other.top)
      ensures base == old(other.base) && taken == old(other.taken) && free == old(other.free)
      ensures other.data == 0 && other.length == 0
      ensures other.Valid() && other.Allocations() == [] && other.Chunks() == {}
    {
      data, length, b, m, e := other.data, other.length, other.b, other.m, other.e;
      top, headers := other.top, other.headers;
      base, taken, free := other.base, other.taken, other.free;
      other.Clear();
    }

    method Clear()
      modifies this
      ensures data == 0 && length == 0
      ensures Valid() && Allocations() == [] && Chunks() == {}
    {
      data, length, b, m, e, top, headers := 0, 0, 0, 0, 0, 0, map[];
      base, taken, free := Region(0, 0, 0, []), [], [];
      assert Sound(base) && taken + free == [];
    }

    /** Move assignment: what was here before is destroyed first. */
    method Assign(other: StackResource) returns (freed: seq<int>)
      requires Valid() && other.Valid()
      modifies this, other
      ensures Valid() && Allocations() == old(other.Allocations()) && Chunks() == old(other.Chunks())
      ensures m == old(other.m) && e == old(other.e) && taken == old(other.taken) && free == old(other.free)
      ensures other != this ==> other.Valid() && other.Allocations() == [] && other.Chunks() == {}
      ensures freed == if other == this then [] else old(Addresses(taken + free))
    {
      freed := [];
      if other != this {
        freed := Destroy();
        TakeOver(other);
      }
    }
  }

  /** What `std::align` leaves of a span. */
  function AlignSpan(address: nat, size: nat): (nat, nat) {
    var padding := AlignUp(ALIGN, address) - address;
    if padding <= size then (address + padding, size - padding) else (0, 0)
  }

  /** `address` is where the first free chunk of at least `size` bytes begins. */
  ghost predicate FirstFit(free: seq<Region>, size: nat, address: int) {
    exists k :: 0 <= k < |free| && address == free[k].b && free[k].e - free[k].b >= size
                && forall j :: 0 <= j < k ==> free[j].e - free[j].b < size
  }

  ghost predicate Consistent(data: int, length: nat, b: int, m: int, e: int, top: int, headers: map<int, Header>,
                             base: Region, taken: seq<Region>, free: seq<Region>) {
    && WellFormed(base, taken, free)
    && base.b == data && base.e == data + length
    && Bounds(Current(base, taken), b, m, e)
    && top == Link(free, 0)
    && TakenHeaders(headers, base, taken)
    && FreeHeaders(headers, free)
  }

  lemma CurrentInOrder(base: Region, taken: seq<Region>, free: seq<Region>)
    requires WellFormed(base, taken, free)
    ensures Current(base, taken).b <= Current(base, taken).m <= Current(base, taken).e
  {
    assert taken != [] ==> (taken + free)[|taken| - 1] == Current(base, taken);
  }

  ghost predicate Bounds(region: Region, b: int, m: int, e: int) {
    region.b == b && region.m == m && region.e == e
  }

  /** The address of the `i`-th free chunk, null behind the last one. */
  ghost function Link(free: seq<Region>, i: nat): int {
    if i < |free| then Block(free[i]) else 0
  }

  ghost predicate TakenHeaders(headers: map<int, Header>, base: Region, taken: seq<Region>) {
    forall i {:trigger TakenHeader(headers, base, taken, i)} :: 0 <= i < |taken| ==> TakenHeader(headers, base, taken, i)
  }

  ghost predicate TakenHeader(headers: map<int, Header>, base: Region, taken: seq<Region>, i: nat)
    requires i < |taken|
  {
    Block(taken[i]) in headers
    && var header := headers[Block(taken[i])];
       Bounds(Current(base, taken[..i]), header.b, header.m, header.e)
  }

  ghost predicate FreeHeaders(headers: map<int, Header>, free: seq<Region>) {
    forall i {:trigger FreeHeader(headers, free, i)} :: 0 <= i < |free| ==> FreeHeader(headers, free, i)
  }

  ghost predicate FreeHeader(headers: map<int, Header>, free: seq<Region>, i: nat)
    requires i < |free|
  {
    Block(free[i]) in headers
    && var header := headers[Block(free[i])];
       Bounds(free[i], header.b, header.m, header.e) && header.freelistNext == Link(free, i + 1)
  }

  /** No two headers share an address, and none is at null. */
  lemma OtherHeaders(base: Region, taken: seq<Region>, free: seq<Region>)
    requires HeapBlocks(base, taken + free)
    ensures forall i, j :: 0 <= i < j < |taken| ==> Block(taken[i]) != Block(taken[j])
    ensures forall i, j :: 0 <= i < j < |free| ==> Block(free[i]) != Block(free[j])
    ensures forall i, j :: 0 <= i < |taken| && 0 <= j < |free| ==> Block(taken[i]) != Block(free[j])
    ensures forall i :: 0 <= i < |free| ==> 0 < Block(free[i])
  {
    var blocks, n := taken + free, |taken|;
    BlocksDiffer(base, blocks);
    assert forall i :: 0 <= i < n ==> blocks[i] == taken[i];
    forall i | 0 <= i < |free|
      ensures blocks[n + i] == free[i] && 0 < Block(free[i])
    {
      assert 0 < Block(blocks[n + i]);
    }
    forall i, j | 0 <= i < j < |free|
      ensures Block(free[i]) != Block(free[j])
    {
      assert Block(blocks[n + i]) != Block(blocks[n + j]);
    }
    forall i, j | 0 <= i < |taken| && 0 <= j < |free|
      ensures Block(taken[i]) != Block(free[j])
    {
      assert Block(blocks[i]) != Block(blocks[n + j]);
    }
  }

  lemma DroppedHeaders(headers: map<int, Header>, base: Region, taken: seq<Region>, free: seq<Region>)
    requires HeapBlocks(base, taken + free) && taken != []
    requires TakenHeaders(headers, base, taken) && FreeHeaders(headers, free)
    ensures TakenHeader(headers, base, taken, |taken| - 1)
    ensures var last := taken[|taken| - 1];
            var headers' := headers[Block(last) := Header(last.b, last.m, last.e, Link(free, 0))];
            && TakenHeaders(headers', base, taken[..|taken| - 1])
            && FreeHeaders(headers', [last] + free)
  {
    var n := |taken| - 1;
    var last := taken[n];
    var headers' := headers[Block(last) := Header(last.b, last.m, last.e, Link(free, 0))];
    OtherHeaders(base, taken, free);
    forall i | 0 <= i < n
      ensures TakenHeader(headers', base, taken[..n], i)
    {
      assert TakenHeader(headers, base, taken, i);
      assert taken[..n][..i] == taken[..i];
    }
    forall i | 0 <= i < |free| + 1
      ensures FreeHeader(headers', [last] + free, i)
    {
      if i > 0 {
        assert FreeHeader(headers, free, i - 1);
      }
    }
  }

  function Without<T>(s: seq<T>, k: nat): seq<T>
    requires k < |s|
  {
    s[..k] + s[k + 1..]
  }

  ghost predicate FreeBounds(headers: map<int, Header>, region: Region) {
    && Block(region) in headers
    && Bounds(region, headers[Block(region)].b, headers[Block(region)].m, headers[Block(region)].e)
  }

  /** Only links of the freelist differ. */
  ghost predicate SameStates(before: map<int, Header>, after: map<int, Header>) {
    forall a :: a in before ==> a in after && after[a] == before[a].(freelistNext := after[a].freelistNext)
  }

  /** The header map after the `k`-th free chunk has been unlinked. */
  function Relink(headers: map<int, Header>, free: seq<Region>, k: nat): map<int, Header>
    requires k < |free|
  {
    if k == 0 || Block(free[k - 1]) !in headers || Block(free[k]) !in headers then headers
    else headers[Block(free[k - 1]) :=
      headers[Block(free[k - 1])].(freelistNext := headers[Block(free[k])].freelistNext)]
  }

  lemma Unlinked(headers: map<int, Header>, free: seq<Region>, k: nat)
    requires FreeHeaders(headers, free) && k < |free|
    requires forall i, j :: 0 <= i < j < |free| ==> Block(free[i]) != Block(free[j])
    ensures FreeHeaders(Relink(headers, free, k), Without(free, k))
    ensures Link(Without(free, k), 0) == if k == 0 then Link(free, 1) else Link(free, 0)
    ensures FreeBounds(Relink(headers, free, k), free[k]) && SameStates(headers, Relink(headers, free, k))
  {
    var rest, headers' := Without(free, k), Relink(headers, free, k);
    assert FreeHeader(headers, free, k);
    if k > 0 {
      assert FreeHeader(headers, free, k - 1);
    }
    forall i | 0 <= i < |rest|
      ensures FreeHeader(headers', rest, i)
    {
      assert FreeHeader(headers, free, if i < k then i else i + 1);
    }
  }

  // ----- steps of allocation -----

  /** The chunk in the block at `address` after its first `size` bytes were handed out. */
  function FirstIn(address: int, capacity: nat, size: nat): Region {
    var b := address + HEADER;
    Region(b, b + size, b + capacity, [Alloc(b, size)])
  }

  lemma BumpedHeaders(headers: map<int, Header>, base: Region, taken: seq<Region>, base': Region, taken': seq<Region>)
    requires TakenHeaders(headers, base, taken) && |taken'| == |taken|
    requires forall i :: 0 <= i < |taken| ==> taken'[i].b == taken[i].b
    requires forall i :: 0 <= i < |taken| ==> Current(base', taken'[..i]) == Current(base, taken[..i])
    ensures TakenHeaders(headers, base', taken')
  {
    forall i | 0 <= i < |taken|
      ensures TakenHeader(headers, base', taken', i)
    {
      assert TakenHeader(headers, base, taken, i);
      assert taken'[i].b == taken[i].b;
    }
  }

  /** The bump pointer moves within the current region, and nothing else does. */
  lemma OnlyBumpMoves(data: int, length: nat, b: int, m: int, e: int, top: int, headers: map<int, Header>,
                      base: Region, taken: seq<Region>, free: seq<Region>, m': int, base': Region, taken': seq<Region>)
    requires Consistent(data, length, b, m, e, top, headers, base, taken, free)
    requires WellFormed(base', taken', free) && base'.b == base.b && base'.e == base.e && |taken'| == |taken|
    requires forall i :: 0 <= i < |taken| ==> taken'[i].b == taken[i].b && taken'[i].e == taken[i].e
    requires forall i :: 0 <= i < |taken| ==> Current(base', taken'[..i]) == Current(base, taken[..i])
    requires Bounds(Current(base', taken'), b, m', e)
    ensures Consistent(data, length, b, m', e, top, headers, base', taken', free)
    ensures Extents(taken' + free) == Extents(taken + free)
  {
    BumpedHeaders(headers, base, taken, base', taken');
    ExtentsOf(taken + free, taken' + free);
  }

  lemma PushedHeaders(headers: map<int, Header>, base: Region, taken: seq<Region>, free: seq<Region>,
                      region: Region, header: Header)
    requires HeapBlocks(base, taken + [region] + free)
    requires TakenHeaders(headers, base, taken) && FreeHeaders(headers, free)
    requires Bounds(Current(base, taken), header.b, header.m, header.e)
    ensures TakenHeaders(headers[Block(region) := header], base, taken + [region])
    ensures FreeHeaders(headers[Block(region) := header], free)
  {
    var taken', headers' := taken + [region], headers[Block(region) := header];
    OtherHeaders(base, taken', free);
    assert taken'[|taken|] == region;
    forall i | 0 <= i < |taken'|
      ensures TakenHeader(headers', base, taken', i)
    {
      assert taken'[..i] == taken[..i];
      if i < |taken| {
        assert TakenHeader(headers, base, taken, i) && taken'[i] == taken[i];
      } else {
        assert taken[..i] == taken;
      }
    }
    forall i | 0 <= i < |free|
      ensures FreeHeader(headers', free, i)
    {
      assert FreeHeader(headers, free, i);
    }
  }

  lemma KeptTaken(before: map<int, Header>, after: map<int, Header>, base: Region, taken: seq<Region>)
    requires TakenHeaders(before, base, taken) && SameStates(before, after)
    ensures TakenHeaders(after, base, taken)
  {
    forall i | 0 <= i < |taken|
      ensures TakenHeader(after, base, taken, i)
    {
      assert TakenHeader(before, base, taken, i);
    }
  }

  lemma FirstAlloc(b: int, size: nat)
    requires b % ALIGN == 0 && size % ALIGN == 0
    ensures Tiled(b, b + size, [Alloc(b, size)])
  {
    TiledPush(b, b, [], size);
    assert [] + [Alloc(b, size)] == [Alloc(b, size)];
  }

  lemma DeletedHeader(headers: map<int, Header>, free: seq<Region>)
    requires FreeHeaders(headers, free) && free != []
    requires forall i, j :: 0 <= i < j < |free| ==> Block(free[i]) != Block(free[j])
    ensures Block(free[0]) in headers && headers[Block(free[0])].freelistNext == Link(free[1..], 0)
    ensures FreeHeaders(headers - {Block(free[0])}, free[1..])
  {
    var rest, headers' := free[1..], headers - {Block(free[0])};
    assert FreeHeader(headers, free, 0);
    forall i | 0 <= i < |rest|
      ensures FreeHeader(headers', rest, i)
    {
      assert FreeHeader(headers, free, i + 1);
    }
  }

  // ----- what `reuse_memory` leaves -----

  /** A resource over an aligned buffer. */
  method Over(address: nat, size: nat) returns (resource: StackResource)
    requires address % ALIGN == 0
    ensures fresh(resource) && resource.Valid() && resource.taken == [] && resource.Chunks() == {}
    ensures resource.Allocations() == [] && resource.m == address && resource.e - resource.m == size
  {
    AlignedStays(address);
    resource := new StackResource(address, size);
  }

  lemma AlignedStays(address: nat)
    requires address % ALIGN == 0
    ensures AlignUp(ALIGN, address) == address
  {
    AlignUpIsLeast(ALIGN, address, address);
  }

  /** Its first allocation. */
  method FirstUnit(address: nat, size: nat) returns (resource: StackResource)
    requires address % ALIGN == 0 && size >= ALIGN
    ensures fresh(resource) && resource.Valid() && resource.taken == []
    ensures resource.Allocations() == [Alloc(address, ALIGN)]
  {
    resource := Over(address, size);
    var ptr := resource.Bump(ALIGN);
    if resource.taken + resource.free != [] {
      SomeChunk(resource.taken + resource.free);
    }
  }

  lemma SomeChunk(blocks: seq<Region>)
    requires blocks != []
    ensures Extents(blocks) != {}
  {
    assert (Block(blocks[0]), blocks[0].e) in Extents(blocks);
  }

  /** What was allocated in the initial buffer is still live after `reuse_memory`. */
  method ReuseKeepsTheInitialBuffer(address: nat) returns (resource: StackResource)
    requires address % ALIGN == 0
    ensures resource.Valid() && resource.Allocations() == [Alloc(address, ALIGN)]
  {
    resource := FirstUnit(address, 2 * ALIGN);
    resource.ReuseMemory();
  }
}
