/** The page allocator and byte store (src/memory/page_table.rs). */
module Pages {
  import opened Collections

  const U32_LIMIT: int := 0x1_0000_0000

  type u32 = x: int | 0 <= x < U32_LIMIT

  datatype MemoryError = PageFault(address: u64) | PermissionDenied(segment: u64) | OutOfMemory

  /** Success, a reported error, or a panic (usize overflow, division by zero, index out of range). */
  datatype Result<+T> = Ok(value: T) | Err(error: MemoryError) | Panic

  datatype Flags = Flags(
    present: bool, writable: bool, executable: bool, userAccessible: bool, dirty: bool, accessed: bool)

  const DEFAULT_FLAGS := Flags(true, true, false, true, false, false)

  datatype Page = Page(data: seq<byte>, flags: Flags)

  datatype Table = Table(pages: map<u32, Page>, freePages: seq<u32>, nextPageId: u32)

  function Zeros(n: nat): (z: seq<byte>)
    ensures |z| == n && forall i | 0 <= i < n :: z[i] == 0
  {
    seq(n, _ => 0)
  }

  /** `data` with `bytes` copied over it from `offset`. */
  function Spliced(data: seq<byte>, offset: nat, bytes: seq<byte>): (r: seq<byte>)
    requires offset + |bytes| <= |data|
    ensures |r| == |data|
    ensures forall i | 0 <= i < |data| :: r[i] == if offset <= i < offset + |bytes| then bytes[i - offset] else data[i]
  {
    data[..offset] + bytes + data[offset + |bytes|..]
  }

  /** The id the next allocation hands out: the most recently freed one, else a new one, else none. */
  function NextId(t: Table): Option<u32> {
    if t.freePages != [] then Some(Last(t.freePages))
    else if t.nextPageId + 1 < U32_LIMIT then Some(t.nextPageId)
    else None
  }

  function PageAllocated(t: Table, pageSize: nat): (Table, Result<u32>) {
    match NextId(t)
    case None => (t, Err(OutOfMemory))
    case Some(id) =>
      (Table(t.pages[id := Page(Zeros(pageSize), DEFAULT_FLAGS)],
             if t.freePages != [] then t.freePages[..|t.freePages| - 1] else [],
             if t.freePages != [] then t.nextPageId else t.nextPageId + 1),
       Ok(id))
  }

  function PageFreed(t: Table, id: u32): Table {
    if id in t.pages then t.(pages := t.pages - {id}, freePages := t.freePages + [id]) else t
  }

  function PageRead(t: Table, pageSize: u64, id: u32, offset: u64, size: u64): Result<seq<byte>>
    requires id in t.pages ==> |t.pages[id].data| == pageSize
  {
    if id !in t.pages || !t.pages[id].flags.present then Err(PageFault(id))
    else if offset + size >= U64_LIMIT then Panic
    else if offset + size > pageSize then Err(PageFault(id))
    else Ok(t.pages[id].data[offset..offset + size])
  }

  /** Whether a write of `length` bytes goes through. */
  function WriteCheck(t: Table, pageSize: u64, id: u32, offset: u64, length: nat): Result<()> {
    if id !in t.pages || !t.pages[id].flags.present || !t.pages[id].flags.writable then Err(PageFault(id))
    else if offset + length >= U64_LIMIT then Panic
    else if offset + length > pageSize then Err(PageFault(id))
    else Ok(())
  }

  function PageWritten(t: Table, pageSize: u64, id: u32, offset: u64, bytes: seq<byte>): (Table, Result<()>)
    requires id in t.pages ==> |t.pages[id].data| == pageSize
  {
    var check := WriteCheck(t, pageSize, id, offset, |bytes|);
    if !check.Ok? then (t, check)
    else
      var page := t.pages[id];
      (t.(pages := t.pages[id := Page(Spliced(page.data, offset, bytes),
                                      page.flags.(dirty := true, accessed := true))]),
       check)
  }

  function FlagsSet(t: Table, id: u32, flags: Flags): (Table, Result<()>) {
    if id in t.pages then (t.(pages := t.pages[id := t.pages[id].(flags := flags)]), Ok(()))
    else (t, Err(PageFault(id)))
  }

  /** Live and free ids partition the ids handed out so far; every page is full size. */
  ghost predicate Partitioned(t: Table, pageSize: nat) {
    && (forall id: u32 :: id < t.nextPageId <==> id in t.pages || id in t.freePages)
    && (forall id | id in t.freePages :: id !in t.pages)
    && (forall i, j | 0 <= i < j < |t.freePages| :: t.freePages[i] != t.freePages[j])
    && (forall id | id in t.pages :: |t.pages[id].data| == pageSize)
  }

  class PageTable {
    const pageSize: u64
    var pages: map<u32, Page>
    var freePages: seq<u32>
    var nextPageId: u32

    function View(): Table
      reads this
    {
      Table(pages, freePages, nextPageId)
    }

    constructor (pageSize: u64)
      ensures this.pageSize == pageSize && View() == Table(map[], [], 0)
    {
      this.pageSize := pageSize;
      pages, freePages, nextPageId := map[], [], 0;
    }

    method AllocatePage() returns (r: Result<u32>)
      modifies this
      ensures (View(), r) == PageAllocated(old(View()), pageSize)
    {
      var id: u32;
      if freePages != [] {
        id := freePages[|freePages| - 1];
        freePages := freePages[..|freePages| - 1];
      } else {
        id := nextPageId;
        if id + 1 >= U32_LIMIT {
          return Err(OutOfMemory);
        }
        nextPageId := id + 1;
      }
      pages := pages[id := Page(Zeros(pageSize), DEFAULT_FLAGS)];
      return Ok(id);
    }

    method FreePage(id: u32)
      modifies this
      ensures View() == PageFreed(old(View()), id)
    {
      if id in pages {
        pages := pages - {id};
        freePages := freePages + [id];
      }
    }

    method Read(id: u32, offset: u64, size: u64) returns (r: Result<seq<byte>>)
      requires id in pages ==> |pages[id].data| == pageSize
      ensures r == PageRead(View(), pageSize, id, offset, size)
    {
      if id !in pages {
        return Err(PageFault(id));
      }
      var page := pages[id];
      if !page.flags.present {
        return Err(PageFault(id));
      }
      if offset + size >= U64_LIMIT {
        return Panic;
      }
      if offset + size > pageSize {
        return Err(PageFault(id));
      }
      return Ok(page.data[offset..offset + size]);
    }

    method Write(id: u32, offset: u64, bytes: seq<byte>) returns (r: Result<()>)
      requires id in pages ==> |pages[id].data| == pageSize
      modifies this`pages
      ensures (View(), r) == PageWritten(old(View()), pageSize, id, offset, bytes)
    {
      if id !in pages {
        return Err(PageFault(id));
      }
      var page := pages[id];
      if !page.flags.present || !page.flags.writable {
        return Err(PageFault(id));
      }
      if offset + |bytes| >= U64_LIMIT {
        return Panic;
      }
      if offset + |bytes| > pageSize {
        return Err(PageFault(id));
      }
      page := page.(data := Spliced(page.data, offset, bytes));
      page := page.(flags := page.flags.(dirty := true, accessed := true));
      pages := pages[id := page];
      return Ok(());
    }

    method SetFlags(id: u32, flags: Flags) returns (r: Result<()>)
      modifies this`pages
      ensures (View(), r) == FlagsSet(old(View()), id, flags)
    {
      if id !in pages {
        return Err(PageFault(id));
      }
      pages := pages[id := pages[id].(flags := flags)];
      return Ok(());
    }
  }

  // ---------- What the allocator keeps ----------

  /** Allocation hands out an id that is not live, keeps the partition, touches no other page, and
      changes nothing when it fails. */
  lemma AllocationIsFresh(t: Table, pageSize: nat)
    requires Partitioned(t, pageSize)
    ensures var (u, r) := PageAllocated(t, pageSize);
            && Partitioned(u, pageSize)
            && (r.Ok? ==>
                  && r.value !in t.pages
                  && u.pages.Keys == t.pages.Keys + {r.value}
                  && (forall id | id in t.pages :: u.pages[id] == t.pages[id]))
            && (!r.Ok? ==> u == t)
  {
    if t.freePages != [] {
      PoppingSplits(t.freePages);
      ReusingKeepsPartition(t, pageSize);
    }
  }

  lemma ReusingKeepsPartition(t: Table, pageSize: nat)
    requires Partitioned(t, pageSize) && t.freePages != []
    requires forall x :: x in t.freePages <==> x in t.freePages[..|t.freePages| - 1] || x == Last(t.freePages)
    requires Last(t.freePages) !in t.freePages[..|t.freePages| - 1]
    ensures Last(t.freePages) !in t.pages
    ensures Partitioned(PageAllocated(t, pageSize).0, pageSize)
  {
    var id := Last(t.freePages);
    var u := PageAllocated(t, pageSize).0;
    assert id in t.freePages;
    forall x: u32
      ensures x < u.nextPageId <==> x in u.pages || x in u.freePages
    {
      assert x in u.pages <==> x in t.pages || x == id;
      assert x in u.freePages <==> x in t.freePages && x != id;
    }
  }

  lemma PoppingSplits(free: seq<u32>)
    requires free != []
    requires forall i, j | 0 <= i < j < |free| :: free[i] != free[j]
    ensures forall x :: x in free <==> x in free[..|free| - 1] || x == Last(free)
    ensures Last(free) !in free[..|free| - 1]
  {
    assert free == free[..|free| - 1] + [Last(free)];
  }

  /** The page freed last is allocated next: freeing a live page and allocating again gives its id
      back and leaves everything as it was, except that the page is blank. */
  lemma FreedIsReusedFirst(t: Table, pageSize: nat, id: u32)
    requires id in t.pages
    ensures PageAllocated(PageFreed(t, id), pageSize)
         == (t.(pages := t.pages[id := Page(Zeros(pageSize), Flags(true, true, false, true, false, false))]), Ok(id))
  {
    var blank := Page(Zeros(pageSize), DEFAULT_FLAGS);
    assert (t.pages - {id})[id := blank] == t.pages[id := blank];
    assert (t.freePages + [id])[..|t.freePages|] == t.freePages;
  }

  /** Freeing keeps the partition and every other page; freeing what is not live does nothing, so
      freeing twice is freeing once. */
  lemma FreeingKeepsPartition(t: Table, pageSize: nat, id: u32)
    requires Partitioned(t, pageSize)
    ensures Partitioned(PageFreed(t, id), pageSize)
    ensures PageFreed(t, id).pages == t.pages - {id}
    ensures PageFreed(PageFreed(t, id), id) == PageFreed(t, id)
  {
    var u := PageFreed(t, id);
    if id in t.pages {
      assert forall x :: x in u.freePages <==> x in t.freePages || x == id;
    } else {
      assert t.pages - {id} == t.pages;
    }
  }

  /** The ids below n, counted. */
  lemma {:induction false} IdsBelow(n: u32) returns (ids: set<u32>)
    ensures forall id: u32 :: id in ids <==> id < n
    ensures |ids| == n
  {
    if n == 0 {
      ids := {};
    } else {
      var fewer := IdsBelow(n - 1);
      ids := fewer + {n - 1};
    }
  }

  /** No id is ever lost: live and free pages always add up to the ids handed out, new ids count up
      from the number of live pages, and allocation fails exactly when all 2^32 - 1 of them are live. */
  lemma FailsOnlyWhenFull(t: Table, pageSize: nat)
    requires Partitioned(t, pageSize)
    ensures |t.pages| + |t.freePages| == t.nextPageId
    ensures PageAllocated(t, pageSize).1 == Err(OutOfMemory) <==> |t.pages| == 0xFFFF_FFFF
    ensures t.freePages == [] && |t.pages| < 0xFFFF_FFFF ==> PageAllocated(t, pageSize).1 == Ok(|t.pages|)
  {
    var ids := IdsBelow(t.nextPageId);
    DistinctCount(t.freePages);
    var free := set id | id in t.freePages;
    assert ids == t.pages.Keys + free;
    assert t.pages.Keys !! free;
    assert |ids| == |t.pages.Keys| + |free|;
  }

  // ---------- Runs ----------

  datatype Event =
    | Allocate
    | Free(id: u32)
    | Write(id: u32, offset: u64, bytes: seq<byte>)
    | SetFlags(id: u32, flags: Flags)

  function After(t: Table, pageSize: u64, e: Event): (u: Table)
    requires Partitioned(t, pageSize)
    ensures Partitioned(u, pageSize)
  {
    match e
    case Allocate => AllocationIsFresh(t, pageSize); PageAllocated(t, pageSize).0
    case Free(id) => FreeingKeepsPartition(t, pageSize, id); PageFreed(t, id)
    case Write(id, offset, bytes) => PageWritten(t, pageSize, id, offset, bytes).0
    case SetFlags(id, flags) => FlagsSet(t, id, flags).0
  }

  function Run(pageSize: u64, es: seq<Event>): (t: Table)
    ensures Partitioned(t, pageSize)
  {
    if es == [] then Table(map[], [], 0) else After(Run(pageSize, es[..|es| - 1]), pageSize, es[|es| - 1])
  }

  /** The byte an event puts at position i of page `id`, if it puts one there: an allocation of that
      page zeroes it, a successful write that covers it sets it. */
  function Puts(t: Table, pageSize: u64, e: Event, id: u32, i: nat): Option<byte> {
    match e
    case Allocate => if NextId(t) == Some(id) then Some(0) else None
    case Write(target, offset, bytes) =>
      if target == id && WriteCheck(t, pageSize, id, offset, |bytes|).Ok? && offset <= i < offset + |bytes|
      then Some(bytes[i - offset]) else None
    case _ => None
  }

  /** The byte a history leaves at position i of page `id`: the last one put there, or zero. */
  function LastWritten(pageSize: u64, es: seq<Event>, id: u32, i: nat): byte {
    if es == [] then 0
    else
      var history := es[..|es| - 1];
      var put := Puts(Run(pageSize, history), pageSize, es[|es| - 1], id, i);
      if put.Some? then put.value else LastWritten(pageSize, history, id, i)
  }

  lemma ByteAfter(t: Table, pageSize: u64, e: Event, id: u32, i: nat)
    requires Partitioned(t, pageSize) && i < pageSize
    requires id in After(t, pageSize, e).pages
    ensures var put := Puts(t, pageSize, e, id, i);
            After(t, pageSize, e).pages[id].data[i]
            == if put.Some? then put.value else if id in t.pages then t.pages[id].data[i] else 0
    ensures Puts(t, pageSize, e, id, i).None? ==> id in t.pages
  {
  }

  /** The table refines a map of byte arrays: each byte of a live page is the last one put there. */
  lemma {:induction false} HoldsLastWritten(pageSize: u64, es: seq<Event>, id: u32, i: nat)
    requires id in Run(pageSize, es).pages && i < pageSize
    ensures Run(pageSize, es).pages[id].data[i] == LastWritten(pageSize, es, id, i)
  {
    var history := es[..|es| - 1];
    var before := Run(pageSize, history);
    ByteAfter(before, pageSize, es[|es| - 1], id, i);
    if Puts(before, pageSize, es[|es| - 1], id, i).None? {
      HoldsLastWritten(pageSize, history, id, i);
    }
  }

  /** So reads see exactly the writes since the page was last allocated. */
  lemma ReadsSeeWrites(pageSize: u64, es: seq<Event>, id: u32, offset: u64, size: u64)
    requires PageRead(Run(pageSize, es), pageSize, id, offset, size).Ok?
    ensures var bytes := PageRead(Run(pageSize, es), pageSize, id, offset, size).value;
            |bytes| == size
            && forall i | 0 <= i < size :: bytes[i] == LastWritten(pageSize, es, id, offset + i)
  {
    var t := Run(pageSize, es);
    var bytes := PageRead(t, pageSize, id, offset, size).value;
    forall i | 0 <= i < size
      ensures bytes[i] == LastWritten(pageSize, es, id, offset + i)
    {
      assert bytes[i] == t.pages[id].data[offset + i];
      HoldsLastWritten(pageSize, es, id, offset + i);
    }
  }

  // ---------- What flags do ----------

  /** What an event makes of a page that is not there, or there with these flags. A page starts
      present, writable and accessible; setting flags replaces them; only a write that the flags and
      the page's size admit marks it. */
  function FlagsAfter(t: Table, pageSize: u64, before: Option<Flags>, e: Event, id: u32): Option<Flags> {
    match e
    case Allocate =>
      if PageAllocated(t, pageSize).1 == Ok(id) then Some(Flags(true, true, false, true, false, false)) else before
    case Free(freed) => if freed == id then None else before
    case SetFlags(target, flags) => if target == id && before.Some? then Some(flags) else before
    case Write(target, offset, bytes) =>
      if target == id && before.Some? && before.value.present && before.value.writable && offset + |bytes| <= pageSize
      then Some(before.value.(dirty := true, accessed := true)) else before
  }

  /** What a history says of a page. */
  function FlagsByHistory(pageSize: u64, es: seq<Event>, id: u32): Option<Flags> {
    if es == [] then None
    else
      var history := es[..|es| - 1];
      FlagsAfter(Run(pageSize, history), pageSize, FlagsByHistory(pageSize, history, id), es[|es| - 1], id)
  }

  function FlagsOf(t: Table, id: u32): Option<Flags> {
    if id in t.pages then Some(t.pages[id].flags) else None
  }

  lemma FlagsStep(t: Table, pageSize: u64, e: Event, id: u32)
    requires Partitioned(t, pageSize)
    ensures FlagsOf(After(t, pageSize, e), id) == FlagsAfter(t, pageSize, FlagsOf(t, id), e, id)
  {
    if e.Allocate? {
      AllocationIsFresh(t, pageSize);
    }
  }

  lemma {:induction false} FlagsAreByHistory(pageSize: u64, es: seq<Event>, id: u32)
    ensures FlagsByHistory(pageSize, es, id) == FlagsOf(Run(pageSize, es), id)
  {
    if es != [] {
      var history := es[..|es| - 1];
      FlagsAreByHistory(pageSize, history, id);
      FlagsStep(Run(pageSize, history), pageSize, es[|es| - 1], id);
    }
  }

  /** Who may access a page, after any history: a read goes through exactly when the history left the
      page there and present and the range lies within it, a write exactly when it is writable as
      well; any other access faults, or panics if the end of the range is no machine integer. Flags can
      be set exactly on a page that is there. */
  lemma AccessExactly(pageSize: u64, es: seq<Event>, id: u32, offset: u64, size: u64, bytes: seq<byte>)
    ensures var t := Run(pageSize, es);
            var flags := FlagsByHistory(pageSize, es, id);
            var readable := flags.Some? && flags.value.present;
            var read := PageRead(t, pageSize, id, offset, size);
            var written := PageWritten(t, pageSize, id, offset, bytes).1;
            && (read.Ok? <==> readable && offset + size <= pageSize)
            && (read.Panic? <==> readable && offset + size >= U64_LIMIT)
            && (read.Err? ==> read.error == PageFault(id))
            && (written.Ok? <==> readable && flags.value.writable && offset + |bytes| <= pageSize)
            && (written.Panic? <==> readable && flags.value.writable && offset + |bytes| >= U64_LIMIT)
            && (written.Err? ==> written.error == PageFault(id))
    ensures forall flags :: FlagsSet(Run(pageSize, es), id, flags).1
              == if FlagsByHistory(pageSize, es, id).Some? then Ok(()) else Err(PageFault(id))
  {
    FlagsAreByHistory(pageSize, es, id);
  }
}
