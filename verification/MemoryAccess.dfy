/** Who may use an address, and what allocating and deallocating cost, over runs of every operation
    on any address. */
module MemoryAccess {
  import opened Collections
  import opened Pages
  import opened Lru
  import opened Gc
  import opened Memory

  datatype Event =
    | Allocate(size: u64, segmentType: SegmentType)
    | Read(addr: MemoryAddress, length: u64)
    | Write(addr: MemoryAddress, bytes: seq<byte>)
    | Protect(addr: MemoryAddress, perms: Permissions)
    | Deallocate(addr: MemoryAddress)

  // ---------- Pages of an allocation ----------

  lemma LivePagesAre(t: Table, u: Table, id: u32)
    requires id !in t.pages && u.pages.Keys == t.pages.Keys + {id}
    ensures |u.pages| == |t.pages| + 1
  {
    assert |u.pages.Keys| == |t.pages.Keys| + 1;
  }

  lemma PageAllocatedCounts(t: Table, pageSize: nat)
    requires Partitioned(t, pageSize)
    ensures var (u, r) := PageAllocated(t, pageSize);
            && Partitioned(u, pageSize)
            && |t.pages| <= 0xFFFF_FFFF
            && (if |t.pages| < 0xFFFF_FFFF then r.Ok? && |u.pages| == |t.pages| + 1
                else u == t && r == Err(OutOfMemory))
  {
    FailsOnlyWhenFull(t, pageSize);
    AllocationIsFresh(t, pageSize);
    var (u, r) := PageAllocated(t, pageSize);
    if r.Ok? {
      LivePagesAre(t, u, r.value);
    }
  }

  /** Allocating n pages makes n more pages live, or runs out of ids and keeps all it got. */
  lemma {:induction false} PagesAllocatedCounts(t: Table, pageSize: nat, n: nat)
    requires Partitioned(t, pageSize)
    ensures var (u, r) := PagesAllocated(t, pageSize, n);
            && Partitioned(u, pageSize)
            && |t.pages| <= 0xFFFF_FFFF
            && (r.Ok? <==> |t.pages| + n <= 0xFFFF_FFFF)
            && (!r.Ok? ==> r == Err(OutOfMemory))
            && |u.pages| == if r.Ok? then |t.pages| + n else 0xFFFF_FFFF
    decreases n
  {
    PageAllocatedCounts(t, pageSize);
    var (u, first) := PageAllocated(t, pageSize);
    if n > 0 && first.Ok? {
      PagesAllocatedCounts(u, pageSize, n - 1);
      var (v, others) := PagesAllocated(u, pageSize, n - 1);
      assert PagesAllocated(t, pageSize, n)
          == (v, if others.Ok? then Ok([first.value] + others.value) else others);
    }
  }

  /** The number of pages is the least that is enough. */
  lemma PagesNeededIsLeast(size: u64, pageSize: u64)
    requires size > 0
    ensures PagesNeeded(size, pageSize).Panic? <==> size + pageSize >= U64_LIMIT || pageSize == 0
    ensures !PagesNeeded(size, pageSize).Err?
    ensures PagesNeeded(size, pageSize).Ok? ==>
              var n := PagesNeeded(size, pageSize).value;
              n * pageSize >= size && (n - 1) * pageSize < size
  {
    if PagesNeeded(size, pageSize).Ok? {
      var n := PagesNeeded(size, pageSize).value;
      var total := size + pageSize - 1;
      assert total == pageSize * n + total % pageSize;
      assert (n - 1) * pageSize == n * pageSize - pageSize;
    }
  }

  /** Whether an allocation gets as far as taking pages. */
  predicate Takes(cfg: Config, m: Manager, size: u64, segmentType: SegmentType) {
    && TotalSize(m.segments) < U64_LIMIT
    && size > 0 && (segmentType.Data? ==> size * 2 < U64_LIMIT)
    && size + cfg.pageSize < U64_LIMIT && cfg.pageSize > 0
  }

  /** What an allocation costs: it makes live the least number of pages that can hold the segment, and
      succeeds exactly when that many ids are left; if they are not, it keeps all that were, and no
      address reaches them. Before it takes pages it fails for the stated reasons only. */
  lemma AllocationTakesPages(cfg: Config, m: Manager, size: u64, segmentType: SegmentType)
      returns (n: nat)
    requires Partitioned(m.table, cfg.pageSize)
    ensures var (t, r) := Allocated(cfg, m, size, segmentType);
            && |m.table.pages| <= 0xFFFF_FFFF
            && (!Takes(cfg, m, size, segmentType) ==>
                  && t.table == m.table
                  && r == if TotalSize(m.segments) < U64_LIMIT && size == 0 then Err(OutOfMemory) else Panic)
            && (Takes(cfg, m, size, segmentType) ==>
                  && n * cfg.pageSize >= size && (n - 1) * cfg.pageSize < size
                  && (r.Ok? <==> |m.table.pages| + n <= 0xFFFF_FFFF)
                  && (!r.Ok? ==> r == Err(OutOfMemory))
                  && |t.table.pages| == if r.Ok? then |m.table.pages| + n else 0xFFFF_FFFF)
            && Partitioned(t.table, cfg.pageSize)
  {
    n := 0;
    FailsOnlyWhenFull(m.table, cfg.pageSize);
    PagesAllocatedCounts(m.table, cfg.pageSize, 0);
    if size > 0 {
      PagesNeededIsLeast(size, cfg.pageSize);
      var needed := PagesNeeded(size, cfg.pageSize);
      if needed.Ok? {
        n := needed.value;
        PagesAllocatedCounts(m.table, cfg.pageSize, n);
      }
    }
  }

  // ---------- Runs ----------

  /** What every operation keeps, whatever addresses it is given. */
  ghost predicate Kept(cfg: Config, m: Manager) {
    Partitioned(m.table, cfg.pageSize) && WellFormed(m.cache)
  }

  function After(cfg: Config, m: Manager, e: Event): Manager
    requires Partitioned(m.table, cfg.pageSize)
  {
    match e
    case Allocate(size, segmentType) => Allocated(cfg, m, size, segmentType).0
    case Read(addr, length) => ReadAt(cfg, m, addr, length).0
    case Write(addr, bytes) => WrittenAt(cfg, m, addr, bytes).0
    case Protect(addr, perms) => Protected(m, addr, perms)
    case Deallocate(addr) => Deallocated(m, addr).0
  }

  lemma ReadKeeps(cfg: Config, m: Manager, addr: MemoryAddress, length: u64)
    requires Kept(cfg, m)
    ensures Kept(cfg, ReadAt(cfg, m, addr, length).0)
    ensures ReadAt(cfg, m, addr, length).0.table == m.table
  {
    LookingKeepsWellFormed(m.cache, addr);
    var r := PageRead(m.table, cfg.pageSize, addr.pageId, addr.offset, length);
    if addr !in m.cache.entries && r.Ok? {
      InsertingKeepsWellFormed(Looked(m.cache, addr).0, cfg.cacheSize, addr, r.value);
    }
  }

  lemma EventKeeps(cfg: Config, m: Manager, e: Event)
    requires Kept(cfg, m)
    ensures Kept(cfg, After(cfg, m, e))
  {
    match e
    case Allocate(size, segmentType) =>
      var n := AllocationTakesPages(cfg, m, size, segmentType);
    case Read(addr, length) => ReadKeeps(cfg, m, addr, length);
    case Write(addr, bytes) => DroppingKeepsWellFormed(m.cache, addr);
    case Protect(addr, perms) =>
    case Deallocate(addr) => FreeingKeepsPartition(m.table, cfg.pageSize, addr.pageId);
  }

  ghost function Run(cfg: Config, es: seq<Event>): (m: Manager)
    ensures Kept(cfg, m)
  {
    if es == [] then Empty()
    else
      var before := Run(cfg, es[..|es| - 1]);
      EventKeeps(cfg, before, es[|es| - 1]);
      After(cfg, before, es[|es| - 1])
  }

  // ---------- Permissions ----------

  /** What an event makes of an address's permissions: the allocation that returns it grants reading
      and writing, protecting it replaces them, and deallocating it takes them away. */
  ghost function GrantedAfter(
      cfg: Config, m: Manager, before: Option<Permissions>, e: Event, addr: MemoryAddress): Option<Permissions>
    requires Partitioned(m.table, cfg.pageSize)
  {
    match e
    case Allocate(size, segmentType) =>
      if Allocated(cfg, m, size, segmentType).1 == Ok(addr) then Some(Permissions(true, true, false)) else before
    case Protect(a, perms) => if a == addr then Some(perms) else before
    case Deallocate(a) => if a == addr && addr.segmentId < |m.segments| then None else before
    case _ => before
  }

  ghost function GrantedByHistory(cfg: Config, es: seq<Event>, addr: MemoryAddress): Option<Permissions> {
    if es == [] then None
    else
      var history := es[..|es| - 1];
      GrantedAfter(cfg, Run(cfg, history), GrantedByHistory(cfg, history, addr), es[|es| - 1], addr)
  }

  function GrantedOf(m: Manager, addr: MemoryAddress): Option<Permissions> {
    if addr in m.permissions then Some(m.permissions[addr]) else None
  }

  lemma GrantedStep(cfg: Config, m: Manager, e: Event, addr: MemoryAddress)
    requires Partitioned(m.table, cfg.pageSize)
    ensures GrantedOf(After(cfg, m, e), addr) == GrantedAfter(cfg, m, GrantedOf(m, addr), e, addr)
  {
  }

  lemma {:induction false} GrantedIsByHistory(cfg: Config, es: seq<Event>, addr: MemoryAddress)
    ensures GrantedByHistory(cfg, es, addr) == GrantedOf(Run(cfg, es), addr)
  {
    if es != [] {
      var history := es[..|es| - 1];
      GrantedIsByHistory(cfg, history, addr);
      GrantedStep(cfg, Run(cfg, history), es[|es| - 1], addr);
    }
  }

  /** Who may write, after any run: a write is refused, and changes nothing, exactly when what the
      history last granted on that very address does not include writing; otherwise it does what
      the page table makes of it. */
  lemma WritesAsGranted(cfg: Config, es: seq<Event>, addr: MemoryAddress, bytes: seq<byte>)
    ensures var m := Run(cfg, es);
            var granted := GrantedByHistory(cfg, es, addr);
            var (n, r) := WrittenAt(cfg, m, addr, bytes);
            if granted.Some? && granted.value.write
            then && r == PageWritten(m.table, cfg.pageSize, addr.pageId, addr.offset, bytes).1
                 && n.table == PageWritten(m.table, cfg.pageSize, addr.pageId, addr.offset, bytes).0
                 && r != Err(PermissionDenied(addr.segmentId))
            else n == m && r == Err(PermissionDenied(addr.segmentId))
  {
    GrantedIsByHistory(cfg, es, addr);
  }

  /** Who may read: an address that is not cached is read exactly when what the history last granted
      on it includes reading, and refused otherwise. A cached one is read whatever was granted. */
  lemma ReadsAsGranted(cfg: Config, es: seq<Event>, addr: MemoryAddress, length: u64)
    ensures var m := Run(cfg, es);
            var granted := GrantedByHistory(cfg, es, addr);
            var (n, r) := ReadAt(cfg, m, addr, length);
            if addr in m.cache.entries then r == Ok(m.cache.entries[addr])
            else if granted.Some? && granted.value.read
            then && r == PageRead(m.table, cfg.pageSize, addr.pageId, addr.offset, length)
                 && r != Err(PermissionDenied(addr.segmentId))
            else n == m.(misses := m.misses + 1) && r == Err(PermissionDenied(addr.segmentId))
  {
    GrantedIsByHistory(cfg, es, addr);
    LookingKeepsWellFormed(Run(cfg, es).cache, addr);
    WellFormedSize(Run(cfg, es).cache);
  }

  lemma RunThen(cfg: Config, es: seq<Event>, e: Event)
    ensures Run(cfg, es + [e]) == After(cfg, Run(cfg, es), e)
  {
    assert (es + [e])[..|es|] == es;
  }

  /** Protecting an address decides its next write and, unless it is cached, its next read; no other
      address is granted more or less. */
  lemma ProtectDecides(cfg: Config, es: seq<Event>, addr: MemoryAddress, perms: Permissions, other: MemoryAddress)
    ensures var m := Run(cfg, es + [Protect(addr, perms)]);
            && (WrittenAt(cfg, m, addr, []).1 == Err(PermissionDenied(addr.segmentId)) <==> !perms.write)
            && (ReadAt(cfg, m, addr, 0).1 == Err(PermissionDenied(addr.segmentId))
                <==> !perms.read && addr !in m.cache.entries)
            && (other != addr ==>
                  GrantedByHistory(cfg, es + [Protect(addr, perms)], other) == GrantedByHistory(cfg, es, other))
  {
    var e := Protect(addr, perms);
    RunThen(cfg, es, e);
    assert (es + [e])[..|es|] == es;
    WritesAsGranted(cfg, es + [e], addr, []);
    ReadsAsGranted(cfg, es + [e], addr, 0);
  }

  // ---------- Deallocation ----------

  /** What a deallocation does, in any state a run can reach: one page is freed, whatever the segment
      took, the segments behind move down by one, and every other address keeps its permissions and
      its number; the cache is not told. An address beyond the segments panics and changes nothing. */
  lemma DeallocatesExactly(cfg: Config, m: Manager, addr: MemoryAddress)
    requires Kept(cfg, m)
    ensures addr.segmentId >= |m.segments| ==> Deallocated(m, addr) == (m, Panic)
    ensures addr.segmentId < |m.segments| ==>
              var (n, r) := Deallocated(m, addr);
              && Kept(cfg, n) && r == Ok(())
              && n.permissions == m.permissions - {addr} && n.cache == m.cache
              && n.segments == m.segments[..addr.segmentId] + m.segments[addr.segmentId + 1..]
              && n.table.pages == m.table.pages - {addr.pageId}
              && (addr.pageId in m.table.pages ==> |n.table.pages| == |m.table.pages| - 1)
  {
    FreeingKeepsPartition(m.table, cfg.pageSize, addr.pageId);
    if addr.segmentId < |m.segments| && addr.pageId in m.table.pages {
      LivePagesAre(Deallocated(m, addr).0.table, m.table, addr.pageId);
    }
  }

  /** Afterwards writing the address is refused, and so is reading it unless it was cached: then the
      old bytes are read. */
  lemma DeallocatedIsRefused(
      cfg: Config, m: Manager, n: Manager, addr: MemoryAddress, bytes: seq<byte>, length: u64)
    requires Kept(cfg, m) && addr.segmentId < |m.segments| && n == Deallocated(m, addr).0
    ensures Kept(cfg, n)
    ensures WrittenAt(cfg, n, addr, bytes) == (n, Err(PermissionDenied(addr.segmentId)))
    ensures ReadAt(cfg, n, addr, length).1 == if addr in m.cache.entries then Ok(m.cache.entries[addr])
                                              else Err(PermissionDenied(addr.segmentId))
  {
    DeallocatesExactly(cfg, m, addr);
    UngrantedIsRefused(cfg, n, addr, bytes, length);
  }

  lemma UngrantedIsRefused(cfg: Config, m: Manager, addr: MemoryAddress, bytes: seq<byte>, length: u64)
    requires Kept(cfg, m) && addr !in m.permissions
    ensures WrittenAt(cfg, m, addr, bytes) == (m, Err(PermissionDenied(addr.segmentId)))
    ensures ReadAt(cfg, m, addr, length).1 == if addr in m.cache.entries then Ok(m.cache.entries[addr])
                                              else Err(PermissionDenied(addr.segmentId))
  {
    LookingKeepsWellFormed(m.cache, addr);
  }

  // ---------- Statistics ----------

  datatype Counters = Counters(hits: nat, misses: nat, allocations: nat, deallocations: nat)

  function CountersOf(m: Manager): Counters {
    Counters(m.hits, m.misses, m.allocations, m.deallocations)
  }

  /** Reads of cached addresses count as hits, all other reads as misses; allocations and deallocations
      count when they succeed. */
  ghost function CountedAfter(cfg: Config, m: Manager, before: Counters, e: Event): Counters
    requires Partitioned(m.table, cfg.pageSize)
  {
    match e
    case Read(addr, _) =>
      if addr in m.cache.entries then before.(hits := before.hits + 1) else before.(misses := before.misses + 1)
    case Allocate(size, segmentType) =>
      if Allocated(cfg, m, size, segmentType).1.Ok? then before.(allocations := before.allocations + 1) else before
    case Deallocate(addr) =>
      if addr.segmentId < |m.segments| then before.(deallocations := before.deallocations + 1) else before
    case _ => before
  }

  ghost function CountedByHistory(cfg: Config, es: seq<Event>): Counters {
    if es == [] then Counters(0, 0, 0, 0)
    else
      var history := es[..|es| - 1];
      CountedAfter(cfg, Run(cfg, history), CountedByHistory(cfg, history), es[|es| - 1])
  }

  lemma CountedStep(cfg: Config, m: Manager, e: Event)
    requires Kept(cfg, m)
    ensures CountersOf(After(cfg, m, e)) == CountedAfter(cfg, m, CountersOf(m), e)
  {
    if e.Read? {
      LookingKeepsWellFormed(m.cache, e.addr);
    }
  }

  lemma {:induction false} StatisticsCount(cfg: Config, es: seq<Event>)
    ensures CountersOf(Run(cfg, es)) == CountedByHistory(cfg, es)
  {
    if es != [] {
      var history := es[..|es| - 1];
      StatisticsCount(cfg, history);
      CountedStep(cfg, Run(cfg, history), es[|es| - 1]);
    }
  }
}
