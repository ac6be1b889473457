/** The memory manager (src/memory/mod.rs): pages, permissions and segments behind a read cache. */
module Memory {
  import opened Collections
  import opened Pages
  import opened Lru
  import opened Gc

  datatype Permissions = Permissions(read: bool, write: bool, execute: bool)

  const READ_WRITE := Permissions(true, true, false)

  datatype Config = Config(pageSize: u64, gcThreshold: u64, cacheSize: nat)

  datatype Manager = Manager(
    table: Table,
    segments: seq<Segment>,
    permissions: map<MemoryAddress, Permissions>,
    cache: Cache,
    hits: nat,
    misses: nat,
    allocations: nat,
    deallocations: nat)

  // ---------- Operations ----------

  function TotalSize(segments: seq<Segment>): nat {
    if segments == [] then 0 else TotalSize(segments[..|segments| - 1]) + Last(segments).size
  }

  /** A data segment doubles its size for its limit, which may overflow. */
  function NewSegment(segmentType: SegmentType, size: u64): Result<Segment> {
    if size == 0 then Err(OutOfMemory)
    else if segmentType.Data? && size * 2 >= U64_LIMIT then Panic
    else Ok(Segment(segmentType, size, false, None))
  }

  function PagesNeeded(size: u64, pageSize: u64): (r: Result<nat>)
    requires size > 0
    ensures r.Ok? ==> r.value > 0
  {
    if size + pageSize >= U64_LIMIT || pageSize == 0 then Panic
    else
      RoundsUp(size, pageSize);
      Ok((size + pageSize - 1) / pageSize)
  }

  lemma RoundsUp(size: nat, pageSize: nat)
    requires size > 0 && pageSize > 0
    ensures (size + pageSize - 1) / pageSize > 0
  {
    var total := size + pageSize - 1;
    var quotient := total / pageSize;
    assert total == pageSize * quotient + total % pageSize;
    assert pageSize * quotient > 0;
  }

  function PagesAllocated(t: Table, pageSize: nat, n: nat): (r: (Table, Result<seq<u32>>))
    ensures r.1.Ok? ==> |r.1.value| == n
    decreases n
  {
    if n == 0 then (t, Ok([]))
    else
      var (u, first) := PageAllocated(t, pageSize);
      match first
      case Ok(id) =>
        var (v, others) := PagesAllocated(u, pageSize, n - 1);
        (v, if others.Ok? then Ok([id] + others.value) else others)
      case Err(e) => (u, Err(e))
      case Panic => (u, Panic)
  }

  /** Segments after the collection that precedes an allocation, if one is due. */
  function SegmentsKept(cfg: Config, segments: seq<Segment>): seq<Segment> {
    if TotalSize(segments) >= cfg.gcThreshold then Survivors(segments) else segments
  }

  function Allocated(cfg: Config, m: Manager, size: u64, segmentType: SegmentType): (Manager, Result<MemoryAddress>) {
    if TotalSize(m.segments) >= U64_LIMIT then (m, Panic)
    else
      var kept := m.(segments := SegmentsKept(cfg, m.segments));
      match NewSegment(segmentType, size)
      case Err(e) => (kept, Err(e))
      case Panic => (kept, Panic)
      case Ok(segment) =>
        var pushed := kept.(segments := kept.segments + [segment]);
        match PagesNeeded(size, cfg.pageSize)
        case Err(e) => (pushed, Err(e))
        case Panic => (pushed, Panic)
        case Ok(n) => AddressAllocated(cfg, pushed, Truncated(|kept.segments|), n)
  }

  /** The pages of a new segment, and its address: the start of the first of them. */
  function AddressAllocated(cfg: Config, m: Manager, segmentId: u32, n: nat): (Manager, Result<MemoryAddress>)
    requires n > 0
  {
    var (table, ids) := PagesAllocated(m.table, cfg.pageSize, n);
    var paged := m.(table := table);
    match ids
    case Err(e) => (paged, Err(e))
    case Panic => (paged, Panic)
    case Ok(list) =>
      var addr := MemoryAddress(segmentId, list[0], 0);
      (paged.(permissions := paged.permissions[addr := READ_WRITE], allocations := paged.allocations + 1), Ok(addr))
  }

  function Denied<T>(addr: MemoryAddress): Result<T> {
    Err(PermissionDenied(addr.segmentId))
  }

  predicate MayRead(m: Manager, addr: MemoryAddress) {
    addr in m.permissions && m.permissions[addr].read
  }

  predicate MayWrite(m: Manager, addr: MemoryAddress) {
    addr in m.permissions && m.permissions[addr].write
  }

  function ReadAt(cfg: Config, m: Manager, addr: MemoryAddress, size: u64): (Manager, Result<seq<byte>>)
    requires addr.pageId in m.table.pages ==> |m.table.pages[addr.pageId].data| == cfg.pageSize
  {
    var (looked, data) := Looked(m.cache, addr);
    match data
    case Some(bytes) => (m.(cache := looked, hits := m.hits + 1), Ok(bytes))
    case None =>
      var missed := m.(cache := looked, misses := m.misses + 1);
      if !MayRead(m, addr) then (missed, Denied(addr))
      else
        var r := PageRead(m.table, cfg.pageSize, addr.pageId, addr.offset, size);
        (if r.Ok? then missed.(cache := Inserted(looked, cfg.cacheSize, addr, r.value)) else missed, r)
  }

  function WrittenAt(cfg: Config, m: Manager, addr: MemoryAddress, bytes: seq<byte>): (Manager, Result<()>)
    requires addr.pageId in m.table.pages ==> |m.table.pages[addr.pageId].data| == cfg.pageSize
  {
    if !MayWrite(m, addr) then (m, Denied(addr))
    else
      var (table, r) := PageWritten(m.table, cfg.pageSize, addr.pageId, addr.offset, bytes);
      (if r.Ok? then m.(table := table, cache := Dropped(m.cache, addr)) else m.(table := table), r)
  }

  function Protected(m: Manager, addr: MemoryAddress, permissions: Permissions): Manager {
    m.(permissions := m.permissions[addr := permissions])
  }

  /** Frees the first page only, leaves the cache alone, and shifts later segments down. */
  function Deallocated(m: Manager, addr: MemoryAddress): (Manager, Result<()>) {
    if addr.segmentId >= |m.segments| then (m, Panic)
    else
      (m.(segments := m.segments[..addr.segmentId] + m.segments[addr.segmentId + 1..],
          table := PageFreed(m.table, addr.pageId),
          permissions := m.permissions - {addr},
          deallocations := m.deallocations + 1),
       Ok(()))
  }

  // ---------- Invariant ----------

  /** Cached bytes are what the page holds now. */
  ghost predicate Coherent(m: Manager, addr: MemoryAddress)
    requires addr in m.cache.entries
  {
    && addr.pageId in m.table.pages
    && m.cache.entries[addr] <= m.table.pages[addr.pageId].data
  }

  /** Addresses in use start pages of their own, and what is cached is theirs and current. */
  ghost predicate Sound(cfg: Config, m: Manager) {
    && Partitioned(m.table, cfg.pageSize)
    && (forall id | id in m.table.pages :: m.table.pages[id].flags.present && m.table.pages[id].flags.writable)
    && WellFormed(m.cache) && |m.cache.recency| <= Room(cfg.cacheSize)
    && (forall a | a in m.permissions :: a.offset == 0 && a.pageId in m.table.pages)
    && (forall a, b | a in m.permissions && b in m.permissions && a != b :: a.pageId != b.pageId)
    && (forall a | a in m.cache.entries :: a in m.permissions && Coherent(m, a))
  }

  function Empty(): Manager {
    Manager(Table(map[], [], 0), [], map[], Cache(map[], []), 0, 0, 0, 0)
  }

  // ---------- The manager object ----------

  class MemoryManager {
    const config: Config
    const pageTable: PageTable
    const cache: LRUCache
    const gc: GarbageCollector
    var segments: seq<Segment>
    var permissions: map<MemoryAddress, Permissions>
    var hits: nat
    var misses: nat
    var allocations: nat
    var deallocations: nat

    function View(): Manager
      reads this, pageTable, cache
    {
      Manager(pageTable.View(), segments, permissions, cache.View(), hits, misses, allocations, deallocations)
    }

    /** The parts were built from the configuration, and every page is full size. */
    ghost predicate Valid()
      reads this, pageTable, gc
    {
      && pageTable.pageSize == config.pageSize
      && cache.capacity == config.cacheSize
      && gc.threshold == config.gcThreshold && gc.marked == {}
      && Partitioned(pageTable.View(), config.pageSize)
    }

    constructor (config: Config)
      ensures this.config == config && Valid() && View() == Empty()
    {
      this.config := config;
      pageTable := new PageTable(config.pageSize);
      cache := new LRUCache(config.cacheSize);
      gc := new GarbageCollector(config.gcThreshold);
      segments, permissions := [], map[];
      hits, misses, allocations, deallocations := 0, 0, 0, 0;
    }

    method ShouldCollectGarbage() returns (due: Result<bool>)
      ensures due == if TotalSize(segments) >= U64_LIMIT then Panic else Ok(TotalSize(segments) >= config.gcThreshold)
    {
      var total := 0;
      for i := 0 to |segments|
        invariant total == TotalSize(segments[..i]) < U64_LIMIT
      {
        assert segments[..i + 1][..i] == segments[..i];
        total := total + segments[i].size;
        if total >= U64_LIMIT {
          TotalSizeGrows(segments, i + 1);
          return Panic;
        }
      }
      assert segments[..|segments|] == segments;
      return Ok(total >= config.gcThreshold);
    }

    method Allocate(size: u64, segmentType: SegmentType) returns (r: Result<MemoryAddress>)
      requires Valid()
      modifies this, pageTable, gc
      ensures Valid()
      ensures (View(), r) == Allocated(config, old(View()), size, segmentType)
    {
      var due := ShouldCollectGarbage();
      if due.Panic? {
        return Panic;
      }
      if due.value {
        segments := gc.Collect(segments);
      }
      assert segments == SegmentsKept(config, old(segments));
      var segment := NewSegment(segmentType, size);
      if segment.Err? {
        return Err(segment.error);
      }
      if segment.Panic? {
        return Panic;
      }
      var segmentId := Truncated(|segments|);
      segments := segments + [segment.value];
      var needed := PagesNeeded(size, config.pageSize);
      if !needed.Ok? {
        return Panic;
      }
      ghost var pushed := View();
      assert Allocated(config, old(View()), size, segmentType)
          == AddressAllocated(config, pushed, segmentId, needed.value);
      var ids := AllocatePages(needed.value);
      if ids.Err? {
        return Err(ids.error);
      }
      if ids.Panic? {
        return Panic;
      }
      var addr := MemoryAddress(segmentId, ids.value[0], 0);
      permissions := permissions[addr := READ_WRITE];
      allocations := allocations + 1;
      assert (View(), Result.Ok(addr)) == AddressAllocated(config, pushed, segmentId, needed.value);
      return Ok(addr);
    }

    method AllocatePages(n: nat) returns (r: Result<seq<u32>>)
      requires Valid()
      modifies pageTable
      ensures Valid()
      ensures (pageTable.View(), r) == PagesAllocated(old(pageTable.View()), config.pageSize, n)
    {
      var ids := [];
      ghost var start := pageTable.View();
      PrefixedNone(PagesAllocated(start, config.pageSize, n));
      for i := 0 to n
        invariant Valid() && |ids| == i
        invariant PagesAllocated(start, config.pageSize, n)
               == Prefixed(ids, PagesAllocated(pageTable.View(), config.pageSize, n - i))
      {
        AllocationIsFresh(pageTable.View(), config.pageSize);
        PrefixedNext(ids, pageTable.View(), config.pageSize, n - i);
        var id := pageTable.AllocatePage();
        if id.Err? {
          return Err(id.error);
        }
        if id.Panic? {
          return Panic;
        }
        ids := ids + [id.value];
      }
      assert ids + [] == ids;
      return Ok(ids);
    }

    method Read(addr: MemoryAddress, size: u64) returns (r: Result<seq<byte>>)
      requires Valid()
      modifies this, cache
      ensures Valid()
      ensures (View(), r) == ReadAt(config, old(View()), addr, size)
    {
      var data := cache.Get(addr);
      if data.Some? {
        hits := hits + 1;
        return Ok(data.value);
      }
      misses := misses + 1;
      if !MayRead(View(), addr) {
        return Denied(addr);
      }
      r := pageTable.Read(addr.pageId, addr.offset, size);
      if r.Ok? {
        cache.Insert(addr, r.value);
      }
    }

    method Write(addr: MemoryAddress, bytes: seq<byte>) returns (r: Result<()>)
      requires Valid()
      modifies pageTable, cache
      ensures Valid()
      ensures (View(), r) == WrittenAt(config, old(View()), addr, bytes)
    {
      if !MayWrite(View(), addr) {
        return Denied(addr);
      }
      r := pageTable.Write(addr.pageId, addr.offset, bytes);
      if r.Ok? {
        cache.Remove(addr);
      }
    }

    method Protect(addr: MemoryAddress, perms: Permissions)
      requires Valid()
      modifies this`permissions
      ensures Valid()
      ensures View() == Protected(old(View()), addr, perms)
    {
      permissions := permissions[addr := perms];
    }

    method Deallocate(addr: MemoryAddress) returns (r: Result<()>)
      requires Valid()
      modifies this, pageTable
      ensures Valid()
      ensures (View(), r) == Deallocated(old(View()), addr)
    {
      if addr.segmentId >= |segments| {
        return Panic;
      }
      segments := segments[..addr.segmentId] + segments[addr.segmentId + 1..];
      FreeingKeepsPartition(pageTable.View(), config.pageSize, addr.pageId);
      pageTable.FreePage(addr.pageId);
      permissions := permissions - {addr};
      deallocations := deallocations + 1;
      return Ok(());
    }
  }

  lemma {:induction false} TotalSizeGrows(segments: seq<Segment>, i: nat)
    requires i <= |segments|
    ensures TotalSize(segments[..i]) <= TotalSize(segments)
  {
    if i == |segments| {
      assert segments[..i] == segments;
    } else {
      assert segments[..|segments| - 1][..i] == segments[..i];
      TotalSizeGrows(segments[..|segments| - 1], i);
    }
  }

  lemma PrefixedNone(r: (Table, Result<seq<u32>>))
    ensures Prefixed([], r) == r
  {
    if r.1.Ok? {
      assert [] + r.1.value == r.1.value;
    }
  }

  lemma PrefixedNext(ids: seq<u32>, t: Table, pageSize: nat, n: nat)
    requires n > 0
    ensures var (u, id) := PageAllocated(t, pageSize);
            && !id.Panic?
            && Prefixed(ids, PagesAllocated(t, pageSize, n))
               == if id.Ok? then Prefixed(ids + [id.value], PagesAllocated(u, pageSize, n - 1)) else (u, Err(id.error))
  {
    var (u, id) := PageAllocated(t, pageSize);
    if id.Ok? {
      var others := PagesAllocated(u, pageSize, n - 1).1;
      if others.Ok? {
        assert ids + ([id.value] + others.value) == ids + [id.value] + others.value;
      }
    }
  }

  /** Pages already obtained, followed by those an allocation obtains. */
  function Prefixed(ids: seq<u32>, r: (Table, Result<seq<u32>>)): (Table, Result<seq<u32>>) {
    (r.0, if r.1.Ok? then Ok(ids + r.1.value) else r.1)
  }
}
