/**
 How InnoDB lays out a chunk of the buffer pool: block descriptors from the start of the memory, page
 frames behind them, and the way back from a pointer to the block that owns its frame.  Addresses are
 numbers.  The address of the memory and the size granted by the operating system are inputs.
 */
module ChunkLayout {
  import opened Optional

  /** `frames` holds the frame of every block. */
  datatype Chunk = Chunk(mem: nat, memSize: nat, frame: nat, frames: seq<nat>)

  /** ut_2pow_round */
  function RoundDown(x: nat, page: nat): nat
    requires page > 0
  {
    x / page * page
  }

  /** ut_align */
  function AlignUp(x: nat, page: nat): nat
    requires page > 0
  {
    RoundDown(x + (page - 1), page)
  }

  /** The memory a chunk asks for: the pages requested and room for a descriptor of each. */
  function Reserved(request: nat, page: nat, descriptor: nat): nat
    requires page > 0
  {
    var size := RoundDown(request, page);
    size + RoundDown(size / page * descriptor + (page - 1), page)
  }

  /** What is asked for: the whole pages of the request, and the least number of pages that holds their descriptors. */
  lemma ReservedExactly(request: nat, page: nat, descriptor: nat) returns (n: nat, d: nat)
    requires page > 0
    ensures Reserved(request, page, descriptor) == n * page + d * page
    ensures n * page <= request < n * page + page
    ensures d * page >= n * descriptor && (d > 0 ==> (d - 1) * page < n * descriptor)
  {
    n := request / page;
    DivMod(request, page);
    MultipleModulo(n, page);
    d := (n * descriptor + (page - 1)) / page;
    RoundDownBounds(n * descriptor + (page - 1), page);
    assert d > 0 ==> (d - 1) * page == d * page - page;
  }

  // ---------- multiples of the page size ----------

  lemma DivMod(x: nat, page: nat)
    requires page > 0
    ensures x == x / page * page + x % page && x % page < page
  {
  }

  lemma MulStep(a: nat, b: nat, c: nat)
    requires a < b
    ensures a * c + c <= b * c
  {
    MulMonotone(a + 1, b, c);
  }

  lemma {:induction false} MulMonotone(a: nat, b: nat, c: nat)
    requires a <= b
    ensures a * c <= b * c
    decreases b
  {
    if a < b {
      MulMonotone(a, b - 1, c);
    }
  }

  lemma QuotientUnique(x: nat, page: nat, q: nat, r: nat)
    requires page > 0 && x == q * page + r && r < page
    ensures x / page == q && x % page == r
  {
    DivMod(x, page);
    SameQuotient(x / page, q, page, x % page, r);
  }

  lemma SameQuotient(p: nat, q: nat, page: nat, r: nat, s: nat)
    requires p * page + r == q * page + s && r < page && s < page
    ensures p == q
  {
    if p < q {
      MulStep(p, q, page);
    } else if q < p {
      MulStep(q, p, page);
    }
  }

  lemma MultipleModulo(k: nat, page: nat)
    requires page > 0
    ensures k * page % page == 0 && k * page / page == k
  {
    QuotientUnique(k * page, page, k, 0);
  }

  lemma RoundDownBounds(x: nat, page: nat)
    requires page > 0
    ensures RoundDown(x, page) <= x < RoundDown(x, page) + page && RoundDown(x, page) % page == 0
  {
    DivMod(x, page);
    MultipleModulo(x / page, page);
  }

  lemma StepModulo(x: nat, page: nat)
    requires page > 0 && x % page == 0
    ensures (x + page) % page == 0
  {
    DivMod(x, page);
    MultipleModulo(x / page + 1, page);
  }

  // ---------- the layout ----------

  /** The memory granted holds the pages requested and their descriptors, in whole pages. */
  lemma GrantedPages(request: nat, page: nat, descriptor: nat, memSize: nat, n: nat) returns (d: nat)
    requires page > 0 && request >= page && n == request / page && memSize >= Reserved(request, page, descriptor)
    ensures d * page >= n * descriptor && memSize / page >= n + d && n > 0
  {
    DivMod(request, page);
    MultipleModulo(n, page);
    d := (n * descriptor + (page - 1)) / page;
    RoundDownBounds(n * descriptor + (page - 1), page);
    assert memSize >= n * page + d * page;
    assert n * page + d * page == (n + d) * page;
    EnoughPages(memSize, page, n + d);
    if n == 0 {
      assert false;
    }
  }

  lemma EnoughPages(memSize: nat, page: nat, k: nat)
    requires page > 0 && memSize >= k * page
    ensures memSize / page >= k
  {
    DivMod(memSize, page);
    if memSize / page < k {
      MulStep(memSize / page, k, page);
    }
  }

  /** The last frame of n - 1 pages cannot reach into the descriptors, wherever the memory starts. */
  lemma EnoughRoom(request: nat, page: nat, descriptor: nat, mem: nat, memSize: nat, frame: nat, size: int, n: nat)
    requires page > 0 && request >= page && n == request / page && memSize >= Reserved(request, page, descriptor)
    requires frame == AlignUp(mem, page) && size == memSize / page - (if frame != mem then 1 else 0)
    ensures 0 <= n - 1 <= size && mem <= frame && frame % page == 0 && frame + size * page <= mem + memSize
    ensures frame + size * page >= mem + (n - 1) * page + (n - 1) * descriptor
  {
    hide Reserved;
    var p := memSize / page;
    var d := GrantedPages(request, page, descriptor, memSize, n);
    hide AlignUp, RoundDown;
    AlignUpBounds(mem, page);
    DivMod(memSize, page);
    MulMonotone(n + d, p, page);
    MulMonotone(n - 1, n, descriptor);
    assert (n + d) * page == n * page + d * page;
    assert (n - 1) * page == n * page - page;
    assert (p - 1) * page == p * page - page;
  }

  lemma AlignUpBounds(x: nat, page: nat)
    requires page > 0
    ensures x <= AlignUp(x, page) < x + page && AlignUp(x, page) % page == 0
  {
    RoundDownBounds(x + (page - 1), page);
  }

  lemma StillTooMany(page: nat, descriptor: nat, mem: nat, frame: nat, size: nat, least: nat, to: nat)
    requires least <= size && frame + size * page == to >= mem + least * page + least * descriptor
    requires frame < mem + size * descriptor
    ensures size > least && frame + page + (size - 1) * page == to
  {
    assert size > 0 ==> (size - 1) * page == size * page - page;
  }

  /** The loop that takes pages away from the blocks until the descriptors fit before the first frame. */
  method ShrinkToFit(page: nat, descriptor: nat, mem: nat, start: nat, pages: nat, ghost least: nat)
    returns (frame: nat, size: nat)
    requires page > 0 && mem <= start && start % page == 0 && least <= pages
    requires start + pages * page >= mem + least * page + least * descriptor
    ensures least <= size && frame % page == 0 && mem + size * descriptor <= frame
    ensures frame + size * page == start + pages * page
    ensures frame == start || frame - page < mem + (size + 1) * descriptor
  {
    frame, size := start, pages;
    while frame < mem + size * descriptor
      invariant least <= size && mem <= frame && frame % page == 0 && frame + size * page == start + pages * page
      invariant frame == start || frame - page < mem + (size + 1) * descriptor
      decreases size
    {
      StepModulo(frame, page);
      StillTooMany(page, descriptor, mem, frame, size, least, start + pages * page);
      frame := frame + page;
      size := size - 1;
    }
  }

  /** The loop that gives every block its frame. */
  method AssignFrames(page: nat, frame: nat, size: nat) returns (frames: seq<nat>)
    requires page > 0 && frame % page == 0
    ensures |frames| == size && forall k :: 0 <= k < size ==> frames[k] == frame + k * page && frames[k] % page == 0
  {
    frames := [];
    var at, i := frame, 0;
    while i < size
      invariant i == |frames| <= size && at == frame + i * page && at % page == 0
      invariant forall k :: 0 <= k < i ==> frames[k] == frame + k * page && frames[k] % page == 0
    {
      StepModulo(at, page);
      assert (i + 1) * page == i * page + page;
      frames := frames + [at];
      at := at + page;
      i := i + 1;
    }
  }

  /** NoMemory stands for NULL.  In Wrapped the unsigned number of blocks goes below zero before the descriptors are
      subtracted; what the code does from there on is not modelled. */
  datatype Outcome = NoMemory | Wrapped | Laid(chunk: Chunk)

  /** When the number of whole pages behind the alignment is negative. */
  lemma WrapsExactly(request: nat, page: nat, descriptor: nat, mem: nat, memSize: nat)
    requires page > 0 && memSize >= Reserved(request, page, descriptor)
    ensures memSize / page - (if AlignUp(mem, page) != mem then 1 else 0) < 0 <==> memSize < page && mem % page != 0
    ensures memSize < page ==> request < page
  {
    DivMod(memSize, page);
    if memSize >= page {
      EnoughPages(memSize, page, 1);
    } else {
      SmallRequest(request, page, descriptor, memSize);
      QuotientUnique(memSize, page, 0, memSize);
    }
    hide Reserved;
    AlignedFixed(mem, page);
  }

  lemma SmallRequest(request: nat, page: nat, descriptor: nat, memSize: nat)
    requires page > 0 && memSize >= Reserved(request, page, descriptor) && memSize < page
    ensures request < page
  {
    DivMod(request, page);
    if request >= page {
      EnoughPages(request, page, 1);
      MulMonotone(1, request / page, page);
      assert false;
    }
  }

  lemma AlignedFixed(mem: nat, page: nat)
    requires page > 0
    ensures AlignUp(mem, page) == mem <==> mem % page == 0
  {
    AlignUpBounds(mem, page);
    if mem % page == 0 {
      DivMod(mem, page);
      QuotientUnique(mem + (page - 1), page, mem / page, page - 1);
    }
  }

  /** buf_chunk_init.  For a request of at least a page: exactly one page fewer than requested, whatever the alignment
      and the size granted.  A smaller request has no target, since that wraps around too, and gets what the memory
      holds; it fails exactly if not even one page was granted, at an unaligned address.  In all other cases the frames
      are page-aligned, follow each other, lie behind all descriptors and inside the memory. */
  method InitChunk(request: nat, page: nat, descriptor: nat, mem: Option<nat>, memSize: nat) returns (r: Outcome)
    requires page > 0 && memSize >= Reserved(request, page, descriptor)
    ensures r.NoMemory? <==> mem.None?
    ensures r.Wrapped? <==> mem.Some? && memSize < page && mem.value % page != 0
    ensures r.Wrapped? ==> request < page
    ensures r.Laid? ==> LaidOut(r.chunk, page, descriptor) && r.chunk.mem == mem.value && r.chunk.memSize == memSize
    ensures r.Laid? && request >= page ==> |r.chunk.frames| == request / page - 1
    ensures r.Laid? && request < page ==> Filled(r.chunk, page, descriptor)
  {
    if mem.None? {
      return NoMemory;
    }
    var n := request / page;
    var frame := AlignUp(mem.value, page);
    var size: int := memSize / page - (if frame != mem.value then 1 else 0);
    WrapsExactly(request, page, descriptor, mem.value, memSize);
    if size < 0 {
      return Wrapped;
    }
    if request >= page {
      EnoughRoom(request, page, descriptor, mem.value, memSize, frame, size, n);
      EnoughPages(request, page, 1);
    } else {
      QuotientUnique(request, page, 0, request);
      WholePages(page, mem.value, memSize, frame, size);
    }
    hide AlignUp, Reserved, RoundDown;
    var fit: nat;
    frame, fit := ShrinkToFit(page, descriptor, mem.value, frame, size, if n > 0 then n - 1 else 0);
    if n > 0 && fit > n - 1 {
      MulMonotone(n - 1, fit, descriptor);
      MulMonotone(n - 1, fit, page);
      fit := n - 1;
    }
    var frames := AssignFrames(page, frame, fit);
    r := Laid(Chunk(mem.value, memSize, frame, frames));
  }

  lemma WholePages(page: nat, mem: nat, memSize: nat, frame: nat, size: int)
    requires page > 0 && frame == AlignUp(mem, page) && size == memSize / page - (if frame != mem then 1 else 0) >= 0
    ensures mem <= frame < mem + page && frame % page == 0
    ensures frame + size * page <= mem + memSize < frame + size * page + 2 * page
  {
    AlignUpBounds(mem, page);
    DivMod(memSize, page);
    hide AlignUp, RoundDown;
    assert (memSize / page - 1) * page == memSize / page * page - page;
  }

  ghost predicate LaidOut(c: Chunk, page: nat, descriptor: nat)
    requires page > 0
  {
    && (forall k :: 0 <= k < |c.frames| ==> c.frames[k] == c.frame + k * page && c.frames[k] % page == 0)
    && c.mem + |c.frames| * descriptor <= c.frame
    && c.frame + |c.frames| * page <= c.mem + c.memSize
  }

  /** The frames reach to the end of the memory, but for less than two pages, and start as early as they can: a page
      earlier is before the memory, or before the descriptors of one block more. */
  ghost predicate Filled(c: Chunk, page: nat, descriptor: nat) {
    && c.mem + c.memSize < c.frame + |c.frames| * page + 2 * page
    && (c.frame < c.mem + page || c.frame - page < c.mem + (|c.frames| + 1) * descriptor)
  }

  ghost predicate Owns(c: Chunk, page: nat, k: nat, ptr: nat) {
    k < |c.frames| && c.frames[k] <= ptr < c.frames[k] + page
  }

  lemma FramesDisjoint(c: Chunk, page: nat, descriptor: nat, j: nat, k: nat, ptr: nat)
    requires page > 0 && LaidOut(c, page, descriptor) && Owns(c, page, j, ptr) && Owns(c, page, k, ptr)
    ensures j == k
  {
    OwnerIndex(c, page, descriptor, j, ptr);
    OwnerIndex(c, page, descriptor, k, ptr);
  }

  /** The owner of a pointer is found by a division. */
  lemma OwnerIndex(c: Chunk, page: nat, descriptor: nat, k: nat, ptr: nat)
    requires page > 0 && LaidOut(c, page, descriptor) && k < |c.frames|
    ensures Owns(c, page, k, ptr) <==> c.frame <= ptr && (ptr - c.frame) / page == k
  {
    if Owns(c, page, k, ptr) {
      QuotientUnique(ptr - c.frame, page, k, ptr - c.frame - k * page);
    }
    if c.frame <= ptr && (ptr - c.frame) / page == k {
      assert ptr - c.frame == k * page + (ptr - c.frame) % page;
    }
  }

  /** buf_block_align_instance: the chunk and the block whose frame holds the pointer, or nothing if no frame does. */
  method FindBlock(chunks: seq<Chunk>, page: nat, ghost descriptor: nat, ptr: nat) returns (r: Option<(nat, nat)>)
    requires page > 0 && forall c :: 0 <= c < |chunks| ==> LaidOut(chunks[c], page, descriptor)
    ensures r.Some? ==> r.value.0 < |chunks| && Owns(chunks[r.value.0], page, r.value.1, ptr)
    ensures r.None? ==> forall c, k :: 0 <= c < |chunks| ==> !Owns(chunks[c], page, k, ptr)
  {
    var i := 0;
    while i < |chunks|
      invariant i <= |chunks|
      invariant forall c, k :: 0 <= c < i ==> !Owns(chunks[c], page, k, ptr)
    {
      var chunk := chunks[i];
      assert LaidOut(chunk, page, descriptor);
      if chunk.frame <= ptr {
        var offs := (ptr - chunk.frame) / page;
        if offs < |chunk.frames| {
          OwnerIndex(chunk, page, descriptor, offs, ptr);
          return Some((i, offs));
        }
      }
      forall k: nat ensures !Owns(chunk, page, k, ptr) {
        if k < |chunk.frames| { OwnerIndex(chunk, page, descriptor, k, ptr); }
      }
      i := i + 1;
    }
    r := None;
  }
}
