/** Read-cache coherence and what the memory manager promises its callers, over whole runs. */
module MemorySafety {
  import opened Collections
  import opened Pages
  import opened Lru
  import opened Gc
  import opened Memory

  // ---------- Allocation ----------

  /** `u` keeps every page of `t`; pages it adds are fresh and zero. */
  ghost predicate Extends(t: Table, u: Table, pageSize: nat) {
    && Partitioned(u, pageSize)
    && (forall id | id in t.pages :: id in u.pages && u.pages[id] == t.pages[id])
    && (forall id | id in u.pages && id !in t.pages :: u.pages[id] == Page(Zeros(pageSize), DEFAULT_FLAGS))
  }

  lemma PageAllocatedExtends(t: Table, pageSize: nat)
    requires Partitioned(t, pageSize)
    ensures Extends(t, PageAllocated(t, pageSize).0, pageSize)
    ensures var (u, r) := PageAllocated(t, pageSize);
            r.Ok? ==> r.value in u.pages && r.value !in t.pages
  {
    AllocationIsFresh(t, pageSize);
  }

  lemma ExtendsThrough(t: Table, u: Table, v: Table, pageSize: nat)
    requires Extends(t, u, pageSize) && Extends(u, v, pageSize)
    ensures Extends(t, v, pageSize)
  {
  }

  lemma {:induction false} PagesAllocatedExtends(t: Table, pageSize: nat, n: nat)
    requires Partitioned(t, pageSize)
    ensures Extends(t, PagesAllocated(t, pageSize, n).0, pageSize)
    ensures var (u, r) := PagesAllocated(t, pageSize, n);
            r.Ok? && n > 0 ==> r.value[0] in u.pages && r.value[0] !in t.pages
    decreases n
  {
    if n > 0 {
      var (u, first) := PageAllocated(t, pageSize);
      PageAllocatedExtends(t, pageSize);
      if first.Ok? {
        PagesAllocatedExtends(u, pageSize, n - 1);
        ExtendsThrough(t, u, PagesAllocated(u, pageSize, n - 1).0, pageSize);
        assert PagesAllocated(t, pageSize, n).0 == PagesAllocated(u, pageSize, n - 1).0;
      } else {
        assert PagesAllocated(t, pageSize, n).0 == u;
      }
    }
  }

  /** A new page table that keeps every page keeps the manager sound. */
  lemma ExtendedIsSound(cfg: Config, m: Manager, t: Table)
    requires Sound(cfg, m) && Extends(m.table, t, cfg.pageSize)
    ensures Sound(cfg, m.(table := t))
  {
  }

  /** So does an address that starts a page nobody uses. */
  lemma FreshAddressIsSound(cfg: Config, m: Manager, addr: MemoryAddress, perms: Permissions)
    requires Sound(cfg, m) && addr.offset == 0 && addr.pageId in m.table.pages
    requires forall a | a in m.permissions :: a.pageId != addr.pageId
    ensures Sound(cfg, m.(permissions := m.permissions[addr := perms]))
  {
  }

  /** The invariant does not look at segments or counters. */
  lemma SoundLike(cfg: Config, m: Manager, n: Manager)
    requires Sound(cfg, m)
    requires n.table == m.table && n.cache == m.cache && n.permissions == m.permissions
    ensures Sound(cfg, n)
  {
    assert forall a | a in n.cache.entries :: Coherent(n, a) <==> Coherent(m, a);
  }

  /** What an allocation that gets as far as the page table does to a manager. */
  ghost predicate Grown(cfg: Config, m: Manager, n: Manager, r: Result<MemoryAddress>) {
    && Sound(cfg, n)
    && n.cache == m.cache
    && (forall id | id in m.table.pages :: id in n.table.pages && n.table.pages[id] == m.table.pages[id])
    && (if r.Ok? then
          && r.value !in m.permissions
          && n.permissions == m.permissions[r.value := READ_WRITE]
          && n.table.pages[r.value.pageId].data == Zeros(cfg.pageSize)
        else n.permissions == m.permissions)
  }

  lemma PagedIsSound(cfg: Config, m: Manager, n: nat)
    requires Sound(cfg, m) && n > 0
    ensures var (t, ids) := PagesAllocated(m.table, cfg.pageSize, n);
            && Sound(cfg, m.(table := t))
            && (forall id | id in m.table.pages :: id in t.pages && t.pages[id] == m.table.pages[id])
            && (ids.Ok? ==>
                  && ids.value[0] in t.pages && t.pages[ids.value[0]].data == Zeros(cfg.pageSize)
                  && forall a | a in m.permissions :: a.pageId != ids.value[0])
  {
    PagesAllocatedExtends(m.table, cfg.pageSize, n);
    ExtendedIsSound(cfg, m, PagesAllocated(m.table, cfg.pageSize, n).0);
  }

  lemma GrantedIsGrown(cfg: Config, m: Manager, t: Table, addr: MemoryAddress)
    requires Sound(cfg, m) && Sound(cfg, m.(table := t))
    requires forall id | id in m.table.pages :: id in t.pages && t.pages[id] == m.table.pages[id]
    requires addr.offset == 0 && addr.pageId in t.pages && t.pages[addr.pageId].data == Zeros(cfg.pageSize)
    requires forall a | a in m.permissions :: a.pageId != addr.pageId
    ensures var granted := m.(table := t, permissions := m.permissions[addr := READ_WRITE]);
            Grown(cfg, m, granted.(allocations := m.allocations + 1), Ok(addr))
  {
    var granted := m.(table := t, permissions := m.permissions[addr := READ_WRITE]);
    FreshAddressIsSound(cfg, m.(table := t), addr, READ_WRITE);
    SoundLike(cfg, granted, granted.(allocations := m.allocations + 1));
  }

  lemma AddressAllocatedIsSound(cfg: Config, m: Manager, segmentId: u32, n: nat)
    requires Sound(cfg, m) && n > 0
    ensures var (g, r) := AddressAllocated(cfg, m, segmentId, n); Grown(cfg, m, g, r)
  {
    var (t, ids) := PagesAllocated(m.table, cfg.pageSize, n);
    PagedIsSound(cfg, m, n);
    var g := AddressAllocated(cfg, m, segmentId, n).0;
    if ids.Ok? {
      var addr := MemoryAddress(segmentId, ids.value[0], 0);
      GrantedIsGrown(cfg, m, t, addr);
      var granted := m.(table := t, permissions := m.permissions[addr := READ_WRITE]);
      assert g == granted.(allocations := m.allocations + 1);
    } else {
      assert g == m.(table := t);
    }
  }

  /** Allocation keeps the invariant, moves no page and caches nothing; an address it returns is new,
      readable, writable, and starts a zero page of its own. */
  lemma AllocateIsSound(cfg: Config, m: Manager, size: u64, segmentType: SegmentType)
    requires Sound(cfg, m)
    ensures var (n, r) := Allocated(cfg, m, size, segmentType); Grown(cfg, m, n, r)
  {
    var kept := SegmentsKept(cfg, m.segments);
    SoundLike(cfg, m, m.(segments := kept));
    var segment := NewSegment(segmentType, size);
    if segment.Ok? {
      var pushed := m.(segments := kept + [segment.value]);
      SoundLike(cfg, m, pushed);
      if PagesNeeded(size, cfg.pageSize).Ok? {
        AddressAllocatedIsSound(cfg, pushed, Truncated(|kept|), PagesNeeded(size, cfg.pageSize).value);
      }
    }
  }

  /** The segment of a successful allocation is the last one, and the address carries its index. */
  lemma AllocateAddsSegment(cfg: Config, m: Manager, size: u64, segmentType: SegmentType)
    ensures var (n, r) := Allocated(cfg, m, size, segmentType);
            r.Ok? ==>
              && n.segments == SegmentsKept(cfg, m.segments) + [Segment(segmentType, size, false, None)]
              && r.value.segmentId == Truncated(|n.segments| - 1)
  {
  }

  // ---------- Reading, writing, protecting ----------

  lemma LookedIsSound(cfg: Config, m: Manager, addr: MemoryAddress)
    requires Sound(cfg, m)
    ensures Sound(cfg, m.(cache := Looked(m.cache, addr).0))
    ensures Looked(m.cache, addr).0.entries == m.cache.entries
    ensures Looked(m.cache, addr).1 == if addr in m.cache.entries then Some(m.cache.entries[addr]) else None
  {
    LookingKeepsWellFormed(m.cache, addr);
    WellFormedSize(m.cache);
    WellFormedSize(Looked(m.cache, addr).0);
  }

  lemma InsertedIsSound(cfg: Config, m: Manager, addr: MemoryAddress, bytes: seq<byte>)
    requires Sound(cfg, m) && addr in m.permissions && addr !in m.cache.entries
    requires bytes <= m.table.pages[addr.pageId].data
    ensures Sound(cfg, m.(cache := Inserted(m.cache, cfg.cacheSize, addr, bytes)))
  {
    InsertingKeepsWellFormed(m.cache, cfg.cacheSize, addr, bytes);
    EvictingKeepsWellFormed(m.cache, cfg.cacheSize);
    var n := m.(cache := Inserted(m.cache, cfg.cacheSize, addr, bytes));
    forall a | a in n.cache.entries
      ensures a in n.permissions && Coherent(n, a)
    {
      assert a != addr ==> a in m.cache.entries && n.cache.entries[a] == m.cache.entries[a];
    }
  }

  /** Addresses in use read from the start of their page. */
  lemma PageReadsFromStart(cfg: Config, m: Manager, addr: MemoryAddress, size: u64)
    requires Sound(cfg, m) && addr in m.permissions
    ensures PageRead(m.table, cfg.pageSize, addr.pageId, addr.offset, size)
         == if size <= cfg.pageSize then Ok(m.table.pages[addr.pageId].data[..size]) else Err(PageFault(addr.pageId))
  {
    if size <= cfg.pageSize {
      assert m.table.pages[addr.pageId].data[0..size] == m.table.pages[addr.pageId].data[..size];
    }
  }

  /** What a read of a sound manager returns. */
  ghost function ReadAnswer(cfg: Config, m: Manager, addr: MemoryAddress, size: u64): Result<seq<byte>>
    requires Sound(cfg, m)
  {
    if addr in m.cache.entries then
      assert Coherent(m, addr);
      Ok(m.table.pages[addr.pageId].data[..|m.cache.entries[addr]|])
    else if !MayRead(m, addr) then Denied(addr)
    else if size <= cfg.pageSize then Ok(m.table.pages[addr.pageId].data[..size])
    else Err(PageFault(addr.pageId))
  }

  lemma HitIsSound(cfg: Config, m: Manager, addr: MemoryAddress, size: u64)
    requires Sound(cfg, m) && addr in m.cache.entries
    ensures var (n, r) := ReadAt(cfg, m, addr, size);
            Sound(cfg, n) && n.table == m.table && n.permissions == m.permissions && r == ReadAnswer(cfg, m, addr, size)
  {
    LookedIsSound(cfg, m, addr);
    assert Coherent(m, addr);
    var bytes, data := m.cache.entries[addr], m.table.pages[addr.pageId].data;
    assert bytes == data[..|bytes|];
    var looked := m.(cache := Looked(m.cache, addr).0);
    SoundLike(cfg, looked, looked.(hits := m.hits + 1));
  }

  lemma MissIsSound(cfg: Config, m: Manager, addr: MemoryAddress, size: u64)
    requires Sound(cfg, m) && addr !in m.cache.entries
    ensures addr.pageId in m.table.pages ==> |m.table.pages[addr.pageId].data| == cfg.pageSize
    ensures var (n, r) := ReadAt(cfg, m, addr, size);
            Sound(cfg, n) && n.table == m.table && n.permissions == m.permissions && r == ReadAnswer(cfg, m, addr, size)
  {
    LookedIsSound(cfg, m, addr);
    var (cache, data) := Looked(m.cache, addr);
    var looked := m.(cache := cache, misses := m.misses + 1);
    SoundLike(cfg, m.(cache := cache), looked);
    if !MayRead(m, addr) {
      assert ReadAt(cfg, m, addr, size) == (looked, Denied(addr));
    } else {
      PageReadsFromStart(cfg, m, addr, size);
      if size <= cfg.pageSize {
        var bytes := m.table.pages[addr.pageId].data[..size];
        InsertedIsSound(cfg, looked, addr, bytes);
        assert ReadAt(cfg, m, addr, size)
            == (looked.(cache := Inserted(cache, cfg.cacheSize, addr, bytes)), Ok(bytes));
      } else {
        assert ReadAt(cfg, m, addr, size) == (looked, Err(PageFault(addr.pageId)));
      }
    }
  }

  /** Sound managers answer reads exactly so: a cached address with the bytes its page holds now, as many
      as were cached; any other readable address with the first `size` bytes of its page, when the
      page has them. */
  lemma ReadIsSound(cfg: Config, m: Manager, addr: MemoryAddress, size: u64)
    requires Sound(cfg, m)
    ensures addr.pageId in m.table.pages ==> |m.table.pages[addr.pageId].data| == cfg.pageSize
    ensures var (n, r) := ReadAt(cfg, m, addr, size);
            Sound(cfg, n) && n.table == m.table && n.permissions == m.permissions && r == ReadAnswer(cfg, m, addr, size)
  {
    if addr in m.cache.entries {
      HitIsSound(cfg, m, addr, size);
    } else {
      MissIsSound(cfg, m, addr, size);
    }
  }

  lemma PageWrittenIsPartitioned(cfg: Config, m: Manager, addr: MemoryAddress, bytes: seq<byte>)
    requires Sound(cfg, m) && addr in m.permissions
    ensures var (t, r) := PageWritten(m.table, cfg.pageSize, addr.pageId, addr.offset, bytes);
            && Partitioned(t, cfg.pageSize)
            && t.pages.Keys == m.table.pages.Keys
            && (forall id | id in t.pages && id != addr.pageId :: t.pages[id] == m.table.pages[id])
            && (forall id | id in t.pages :: t.pages[id].flags.present && t.pages[id].flags.writable)
            && (r.Ok? <==> |bytes| <= cfg.pageSize)
            && (r.Ok? ==> t.pages[addr.pageId].data == bytes + m.table.pages[addr.pageId].data[|bytes|..])
            && (!r.Ok? ==> t == m.table)
  {
    if |bytes| <= cfg.pageSize {
      var data := m.table.pages[addr.pageId].data;
      assert Spliced(data, 0, bytes) == bytes + data[|bytes|..];
    }
  }

  /** A page changed under an address that is no longer cached leaves the manager sound. */
  lemma UncachedWriteIsSound(cfg: Config, m: Manager, addr: MemoryAddress, t: Table)
    requires Sound(cfg, m) && addr in m.permissions
    requires Partitioned(t, cfg.pageSize) && t.pages.Keys == m.table.pages.Keys
    requires forall id | id in t.pages && id != addr.pageId :: t.pages[id] == m.table.pages[id]
    requires forall id | id in t.pages :: t.pages[id].flags.present && t.pages[id].flags.writable
    ensures Sound(cfg, m.(table := t, cache := Dropped(m.cache, addr)))
  {
    DroppingKeepsWellFormed(m.cache, addr);
    WellFormedSize(m.cache);
    ForgottenIsDistinct(m.cache.recency, addr);
    var n := m.(table := t, cache := Dropped(m.cache, addr));
    forall a | a in n.cache.entries
      ensures a in n.permissions && Coherent(n, a)
    {
      assert a in m.cache.entries && a != addr && Coherent(m, a);
    }
  }

  /** What a write that went through leaves. */
  ghost predicate Overwritten(m: Manager, n: Manager, addr: MemoryAddress, bytes: seq<byte>)
    requires addr.pageId in m.table.pages && |bytes| <= |m.table.pages[addr.pageId].data|
  {
    && n.table.pages.Keys == m.table.pages.Keys
    && n.table.pages[addr.pageId].data == bytes + m.table.pages[addr.pageId].data[|bytes|..]
    && (forall id | id in m.table.pages && id != addr.pageId :: n.table.pages[id] == m.table.pages[id])
    && n.cache.entries == m.cache.entries - {addr}
  }

  /** A write goes through exactly when it is permitted and fits the page. Then the page starts with
      the written bytes, is otherwise unchanged, and is no longer cached; every other page and
      every other cached entry is untouched. */
  lemma WriteIsSound(cfg: Config, m: Manager, addr: MemoryAddress, bytes: seq<byte>)
    requires Sound(cfg, m)
    ensures addr.pageId in m.table.pages ==> |m.table.pages[addr.pageId].data| == cfg.pageSize
    ensures var (n, r) := WrittenAt(cfg, m, addr, bytes);
            && Sound(cfg, n)
            && n.permissions == m.permissions
            && (r.Ok? <==> MayWrite(m, addr) && |bytes| <= cfg.pageSize)
            && (r.Ok? ==> Overwritten(m, n, addr, bytes))
            && (!r.Ok? ==> n == m)
  {
    if MayWrite(m, addr) {
      PageWrittenIsPartitioned(cfg, m, addr, bytes);
      var (t, r) := PageWritten(m.table, cfg.pageSize, addr.pageId, addr.offset, bytes);
      if r.Ok? {
        UncachedWriteIsSound(cfg, m, addr, t);
      }
    }
  }

  lemma ProtectIsSound(cfg: Config, m: Manager, addr: MemoryAddress, perms: Permissions)
    requires Sound(cfg, m) && addr in m.permissions
    ensures Sound(cfg, Protected(m, addr, perms))
  {
  }

  // ---------- Whole runs ----------

  datatype Call =
    | Allocate(size: u64, segmentType: SegmentType)
    | Read(addr: MemoryAddress, length: u64)
    | Write(addr: MemoryAddress, bytes: seq<byte>)
    | Protect(addr: MemoryAddress, perms: Permissions)

  /** Only addresses handed out by an allocation can be named. */
  predicate Legal(m: Manager, call: Call) {
    call.Protect? ==> call.addr in m.permissions
  }

  function Called(cfg: Config, m: Manager, call: Call): Manager
    requires Partitioned(m.table, cfg.pageSize)
  {
    match call
    case Allocate(size, segmentType) => Allocated(cfg, m, size, segmentType).0
    case Read(addr, length) => ReadAt(cfg, m, addr, length).0
    case Write(addr, bytes) => WrittenAt(cfg, m, addr, bytes).0
    case Protect(addr, perms) => Protected(m, addr, perms)
  }

  /** `states` is a run of calls from an empty manager, without deallocation. */
  ghost predicate IsRun(cfg: Config, states: seq<Manager>, calls: seq<Call>) {
    && |states| == |calls| + 1
    && states[0] == Empty()
    && forall i | 0 <= i < |calls| ::
         && Partitioned(states[i].table, cfg.pageSize)
         && Legal(states[i], calls[i])
         && states[i + 1] == Called(cfg, states[i], calls[i])
  }

  lemma CallIsSound(cfg: Config, m: Manager, call: Call)
    requires Sound(cfg, m) && Legal(m, call)
    ensures Sound(cfg, Called(cfg, m, call))
  {
    match call
    case Allocate(size, segmentType) => AllocateIsSound(cfg, m, size, segmentType);
    case Read(addr, length) => ReadIsSound(cfg, m, addr, length);
    case Write(addr, bytes) => WriteIsSound(cfg, m, addr, bytes);
    case Protect(addr, perms) => ProtectIsSound(cfg, m, addr, perms);
  }

  /** Read-cache coherence: over every run, whatever is cached for an address is what its page
      holds at that moment, and no two addresses share a page. */
  lemma {:induction false} RunIsSound(cfg: Config, states: seq<Manager>, calls: seq<Call>)
    requires IsRun(cfg, states, calls)
    ensures Sound(cfg, states[|calls|])
  {
    if calls != [] {
      var n := |calls| - 1;
      assert IsRun(cfg, states[..n + 1], calls[..n]);
      RunIsSound(cfg, states[..n + 1], calls[..n]);
      CallIsSound(cfg, states[n], calls[n]);
    }
  }

  lemma WrittenReadsBack(cfg: Config, m: Manager, addr: MemoryAddress, bytes: seq<byte>)
    requires Sound(cfg, m) && MayRead(m, addr) && MayWrite(m, addr) && |bytes| <= cfg.pageSize
    ensures var n := WrittenAt(cfg, m, addr, bytes).0;
            Sound(cfg, n) && ReadAt(cfg, n, addr, |bytes|).1 == Ok(bytes)
  {
    WriteIsSound(cfg, m, addr, bytes);
    var n := WrittenAt(cfg, m, addr, bytes).0;
    ReadIsSound(cfg, n, addr, |bytes|);
    var data := m.table.pages[addr.pageId].data;
    assert (bytes + data[|bytes|..])[..|bytes|] == bytes;
  }

  lemma WritesStayApart(cfg: Config, m: Manager, addr: MemoryAddress, bytes: seq<byte>, other: MemoryAddress, size: u64)
    requires Sound(cfg, m) && MayWrite(m, addr) && other != addr
    ensures var n := WrittenAt(cfg, m, addr, bytes).0;
            Sound(cfg, n) && ReadAt(cfg, n, other, size).1 == ReadAt(cfg, m, other, size).1
  {
    WriteIsSound(cfg, m, addr, bytes);
    ReadIsSound(cfg, m, other, size);
    ReadIsSound(cfg, WrittenAt(cfg, m, addr, bytes).0, other, size);
    assert other in m.cache.entries ==> other in m.permissions;
  }

  /** Read your writes: in every reachable manager, reading back what was just written gives it back,
      whatever had been cached; and every other address still reads what it read before. */
  lemma ReadYourWrites(cfg: Config, states: seq<Manager>, calls: seq<Call>, addr: MemoryAddress, bytes: seq<byte>,
                       other: MemoryAddress, size: u64)
    requires IsRun(cfg, states, calls) && other != addr && |bytes| <= cfg.pageSize
    requires MayRead(states[|calls|], addr) && MayWrite(states[|calls|], addr)
    ensures Sound(cfg, states[|calls|])
    ensures var n := WrittenAt(cfg, states[|calls|], addr, bytes).0;
            && Sound(cfg, n)
            && ReadAt(cfg, n, addr, |bytes|).1 == Ok(bytes)
            && ReadAt(cfg, n, other, size).1 == ReadAt(cfg, states[|calls|], other, size).1
  {
    RunIsSound(cfg, states, calls);
    WrittenReadsBack(cfg, states[|calls|], addr, bytes);
    WritesStayApart(cfg, states[|calls|], addr, bytes, other, size);
  }

  // ---------- What reads return, by history alone ----------

  /** A write through `addr` that went through and covers byte i of its page. */
  predicate Stores(cfg: Config, m: Manager, call: Call, addr: MemoryAddress, i: nat)
    requires Partitioned(m.table, cfg.pageSize)
  {
    && call.Write? && call.addr == addr && i < |call.bytes|
    && WrittenAt(cfg, m, addr, call.bytes).1.Ok?
  }

  /** Byte i as last written through `addr`, or zero. */
  ghost function LastStored(cfg: Config, states: seq<Manager>, calls: seq<Call>, addr: MemoryAddress, i: nat): byte
    requires IsRun(cfg, states, calls)
  {
    if calls == [] then 0
    else
      var n := |calls| - 1;
      if Stores(cfg, states[n], calls[n], addr, i) then calls[n].bytes[i]
      else
        RunPrefix(cfg, states, calls);
        LastStored(cfg, states[..n + 1], calls[..n], addr, i)
  }

  lemma RunPrefix(cfg: Config, states: seq<Manager>, calls: seq<Call>)
    requires IsRun(cfg, states, calls) && calls != []
    ensures IsRun(cfg, states[..|calls|], calls[..|calls| - 1])
  {
  }

  /** What one call does to byte i of the page an address starts. */
  lemma CallStores(cfg: Config, m: Manager, call: Call, addr: MemoryAddress, i: nat)
    requires Sound(cfg, m) && Legal(m, call) && i < cfg.pageSize
    ensures var n := Called(cfg, m, call);
            && (addr in m.permissions ==>
                  && addr in n.permissions
                  && addr.pageId in n.table.pages
                  && |n.table.pages[addr.pageId].data| == |m.table.pages[addr.pageId].data| == cfg.pageSize
                  && n.table.pages[addr.pageId].data[i]
                     == if Stores(cfg, m, call, addr, i) then call.bytes[i] else m.table.pages[addr.pageId].data[i])
            && (addr !in m.permissions ==> !Stores(cfg, m, call, addr, i))
            && (addr !in m.permissions && addr in n.permissions ==>
                  && addr.pageId in n.table.pages
                  && n.table.pages[addr.pageId].data == Zeros(cfg.pageSize))
  {
    CallIsSound(cfg, m, call);
    match call
    case Allocate(size, segmentType) => AllocateIsSound(cfg, m, size, segmentType);
    case Read(a, length) => ReadIsSound(cfg, m, a, length);
    case Write(a, bytes) => WriteIsSound(cfg, m, a, bytes);
    case Protect(a, perms) =>
  }

  /** Over any run the page an address starts holds, byte for byte, what was last written through
      that address, or zeros. */
  lemma {:induction false} PageHoldsLastStored(
      cfg: Config, states: seq<Manager>, calls: seq<Call>, addr: MemoryAddress, i: nat)
    requires IsRun(cfg, states, calls) && i < cfg.pageSize
    ensures Sound(cfg, states[|calls|])
    ensures var m := states[|calls|];
            if addr in m.permissions
            then m.table.pages[addr.pageId].data[i] == LastStored(cfg, states, calls, addr, i)
            else LastStored(cfg, states, calls, addr, i) == 0
  {
    RunIsSound(cfg, states, calls);
    if calls != [] {
      var n := |calls| - 1;
      RunPrefix(cfg, states, calls);
      PageHoldsLastStored(cfg, states[..n + 1], calls[..n], addr, i);
      CallStores(cfg, states[n], calls[n], addr, i);
      assert states[..n + 1][n] == states[n];
    }
  }

  /** The cache refines plain storage: in every run, every read that succeeds, hit or miss, returns
      byte for byte what was last written through its address, or zeros where nothing was. */
  lemma ReadsReturnLastStored(cfg: Config, states: seq<Manager>, calls: seq<Call>, addr: MemoryAddress, size: u64)
    requires IsRun(cfg, states, calls)
    ensures Sound(cfg, states[|calls|])
    ensures var r := ReadAt(cfg, states[|calls|], addr, size).1;
            r.Ok? ==>
              && |r.value| <= cfg.pageSize
              && forall i | 0 <= i < |r.value| :: r.value[i] == LastStored(cfg, states, calls, addr, i)
  {
    RunIsSound(cfg, states, calls);
    var m := states[|calls|];
    ReadIsSound(cfg, m, addr, size);
    var r := ReadAt(cfg, m, addr, size).1;
    if r.Ok? {
      forall i: nat | i < |r.value|
        ensures r.value[i] == LastStored(cfg, states, calls, addr, i)
      {
        PageHoldsLastStored(cfg, states, calls, addr, i);
      }
    }
  }

  /** A read gives the number of bytes asked for exactly when the address is cached with that length,
      or is not cached, may be read and fits the page: a hit ignores the requested size and the
      current permissions. */
  lemma ReadGivesRequestedSize(cfg: Config, m: Manager, addr: MemoryAddress, size: u64)
    requires Sound(cfg, m)
    ensures var r := ReadAt(cfg, m, addr, size).1;
            r.Ok? && |r.value| == size <==>
              if addr in m.cache.entries then |m.cache.entries[addr]| == size
              else MayRead(m, addr) && size <= cfg.pageSize
  {
    ReadIsSound(cfg, m, addr, size);
    if addr in m.cache.entries {
      assert Coherent(m, addr);
    }
  }

  /** A freshly allocated segment reads back whole, as zeros, exactly when it fits one page: the
      address reaches only the first of the pages set aside for it. */
  lemma AllocatedReadsWholeWithinPage(cfg: Config, m: Manager, size: u64, segmentType: SegmentType)
    requires Sound(cfg, m) && Allocated(cfg, m, size, segmentType).1.Ok?
    ensures var (n, r) := Allocated(cfg, m, size, segmentType);
            && Sound(cfg, n)
            && ReadAt(cfg, n, r.value, size).1
               == if size <= cfg.pageSize then Ok(Zeros(size)) else Err(PageFault(r.value.pageId))
  {
    AllocateIsSound(cfg, m, size, segmentType);
    var (n, r) := Allocated(cfg, m, size, segmentType);
    assert r.value !in n.cache.entries;
    ReadIsSound(cfg, n, r.value, size);
    if size <= cfg.pageSize {
      assert Zeros(cfg.pageSize)[..size] == Zeros(size);
    }
  }

  /** No segment a manager makes is ever a root for the collector. */
  ghost predicate Rootless(segments: seq<Segment>) {
    forall i | 0 <= i < |segments| :: !IsRoot(segments[i])
  }

  lemma RootlessIsSwept(segments: seq<Segment>)
    requires Rootless(segments)
    ensures Survivors(segments) == []
  {
    RootlessIsUnmarked(segments);
  }

  lemma {:induction false} RootlessIsUnmarked(segments: seq<Segment>)
    requires Rootless(segments)
    ensures Marks(segments) == {}
  {
    if segments != [] {
      RootlessIsUnmarked(segments[..|segments| - 1]);
    }
  }

  lemma CallKeepsRootless(cfg: Config, m: Manager, call: Call)
    requires Partitioned(m.table, cfg.pageSize) && Rootless(m.segments)
    ensures Rootless(Called(cfg, m, call).segments)
  {
    RootlessIsSwept(m.segments);
  }

  lemma {:induction false} RunIsRootless(cfg: Config, states: seq<Manager>, calls: seq<Call>)
    requires IsRun(cfg, states, calls)
    ensures Rootless(states[|calls|].segments)
  {
    if calls != [] {
      var n := |calls| - 1;
      assert IsRun(cfg, states[..n + 1], calls[..n]);
      RunIsRootless(cfg, states[..n + 1], calls[..n]);
      CallKeepsRootless(cfg, states[n], calls[n]);
    }
  }

  /** So a collection that is due drops every segment, in-use ones included: in every run, whether
      or not the allocation then succeeds, the earlier segments are all kept when their total is
      below the threshold and all gone otherwise. Pages and permissions stay either way. */
  lemma SegmentsStayUnlessDue(
      cfg: Config, states: seq<Manager>, calls: seq<Call>, size: u64, segmentType: SegmentType)
    requires IsRun(cfg, states, calls)
    ensures var m := states[|calls|];
            var (n, r) := Allocated(cfg, m, size, segmentType);
            var total := TotalSize(m.segments);
            && (total >= U64_LIMIT ==> n == m && r == Panic)
            && (total < U64_LIMIT ==>
                  n.segments == (if total < cfg.gcThreshold then m.segments else [])
                              + (if size == 0 || (segmentType.Data? && size * 2 >= U64_LIMIT) then []
                                 else [Segment(segmentType, size, false, None)]))
            && (r.Ok? ==> r.value.segmentId == Truncated(|n.segments| - 1))
            && forall a | a in m.permissions :: a in n.permissions && a.pageId in n.table.pages
  {
    var m := states[|calls|];
    RunIsRootless(cfg, states, calls);
    RootlessIsSwept(m.segments);
    RunIsSound(cfg, states, calls);
    AllocateIsSound(cfg, m, size, segmentType);
    AllocateAddsSegment(cfg, m, size, segmentType);
  }

  /** Deallocation keeps every cached entry current exactly when the freed address is not itself
      cached: the cache is not told, so such an entry outlives its page. */
  lemma DeallocationKeepsCoherence(cfg: Config, m: Manager, addr: MemoryAddress)
    requires Sound(cfg, m) && addr in m.permissions && addr.segmentId < |m.segments|
    ensures var n := Deallocated(m, addr).0;
            (forall a | a in n.cache.entries :: Coherent(n, a)) <==> addr !in m.cache.entries
  {
    var n := Deallocated(m, addr).0;
    FreeingKeepsPartition(m.table, cfg.pageSize, addr.pageId);
    forall a | a in m.cache.entries && a != addr
      ensures Coherent(n, a)
    {
      assert Coherent(m, a);
    }
  }
}
