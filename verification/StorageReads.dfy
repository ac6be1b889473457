/** What a storage read returns: the cache is stamped with the blocks of reads, and no update touches it. */
module StorageReads {
  import opened Collections
  import opened Accounts

  /** What the storage manager holds for a key under the trie's account. */
  function Stored(backend: Backend, trie: Trie, address: Address, key: Hash): Result<Option<Bytes>> {
    match Decoded(trie, address)
    case Err(e) => Err(e)
    case Ok(None) => Ok(None)
    case Ok(Some(account)) => backend.readStorage(address, key, account.storageRoot)
  }

  predicate Found(read: Result<Option<Bytes>>) {
    read.Ok? && read.value.Some?
  }

  /** What was stored before event i of a run. */
  ghost function StoredBefore(backend: Backend, es: seq<Event>, i: nat, address: Address, key: Hash)
    : Result<Option<Bytes>>
    requires Legal(es) && i <= |es|
  {
    Stored(backend, Run(backend, es[..i]).trie, address, key)
  }

  /** Event i reads the key while something is stored under it, and no revert follows. */
  ghost predicate Finds(backend: Backend, es: seq<Event>, i: nat, address: Address, key: Hash)
    requires Legal(es)
  {
    && i < |es|
    && es[i].GetStorage? && es[i].address == address && es[i].key == key
    && (forall j | i < j < |es| :: !es[j].Revert?)
    && Found(StoredBefore(backend, es, i, address, key))
  }

  /** Of all those reads, event i is the first with the highest block number. */
  ghost predicate Governs(backend: Backend, es: seq<Event>, i: nat, address: Address, key: Hash)
    requires Legal(es)
  {
    && Finds(backend, es, i, address, key)
    && (forall j: nat | Finds(backend, es, j, address, key) ::
          (j < i ==> es[j].block < es[i].block) && es[j].block <= es[i].block)
  }

  /** The cache holds what was stored when the governing read happened, stamped with its block. */
  ghost predicate CachedBy(backend: Backend, es: seq<Event>, i: nat, address: Address, key: Hash)
    requires Legal(es)
  {
    var s := Run(backend, es);
    && Governs(backend, es, i, address, key)
    && (address, key) in s.storage
    && s.storage[(address, key)] == CachedBytes(StoredBefore(backend, es, i, address, key).value.value, es[i].block)
  }

  lemma BatchKeepsStorage(backend: Backend, s: State, batch: Batch, order: seq<Address>, block: nat)
    requires Enumerates(order, batch.Keys)
    ensures forall a | a in order :: a in batch
    ensures BatchApplied(backend, s, batch, order, block).0.storage == s.storage
  {
    EnumeratedAddresses(order, batch);
    BatchIsPointwise(backend, s, batch, order, block, []);
  }

  lemma FindsPrefix(backend: Backend, es: seq<Event>, j: nat, address: Address, key: Hash)
    requires Legal(es) && es != [] && !es[|es| - 1].Revert?
    requires j < |es| - 1
    ensures Legal(es[..|es| - 1])
    ensures Finds(backend, es, j, address, key) <==> Finds(backend, es[..|es| - 1], j, address, key)
    ensures StoredBefore(backend, es, j, address, key) == StoredBefore(backend, es[..|es| - 1], j, address, key)
  {
    assert es[..|es| - 1][..j] == es[..j];
  }

  /** A read of the key by event e, with whatever the cache held before. */
  lemma StorageOfRun(backend: Backend, es: seq<Event>, address: Address, key: Hash)
    requires Legal(es) && es != []
    ensures Legal(es[..|es| - 1])
    ensures var before, e, s := Run(backend, es[..|es| - 1]), es[|es| - 1], Run(backend, es);
            var slot := (address, key);
            var read := Stored(backend, before.trie, address, key);
            if e.Revert? then slot !in s.storage
            else if e.GetStorage? && e.address == address && e.key == key && Found(read)
                    && (slot in before.storage ==> before.storage[slot].block < e.block)
            then slot in s.storage && s.storage[slot] == CachedBytes(read.value.value, e.block)
            else
              && (slot in s.storage <==> slot in before.storage)
              && (slot in s.storage ==> s.storage[slot] == before.storage[slot])
  {
    var before, e := Run(backend, es[..|es| - 1]), es[|es| - 1];
    assert e in es;
    match e
    case GetAccount(_, _) =>
    case GetStorage(a, k, block) => GetIsTransparent(before, a, block);
    case UpdateState(batch, order, number) => BatchKeepsStorage(backend, before, batch, order, number);
    case Revert(_) =>
  }

  lemma FindsBefore(backend: Backend, es: seq<Event>, address: Address, key: Hash)
    requires Legal(es) && es != [] && !es[|es| - 1].Revert?
    ensures Legal(es[..|es| - 1])
    ensures forall j: nat | j < |es| - 1 ::
              Finds(backend, es, j, address, key) <==> Finds(backend, es[..|es| - 1], j, address, key)
  {
    assert forall e | e in es[..|es| - 1] :: e in es;
    forall j: nat | j < |es| - 1
      ensures Finds(backend, es, j, address, key) <==> Finds(backend, es[..|es| - 1], j, address, key)
    {
      FindsPrefix(backend, es, j, address, key);
    }
  }

  /** An event that leaves the cached entry leaves the governing read, unless it finds something
      in a newer block. */
  lemma StillGoverns(backend: Backend, es: seq<Event>, i: nat, address: Address, key: Hash)
    requires Legal(es) && es != [] && !es[|es| - 1].Revert?
    requires Legal(es[..|es| - 1]) && Governs(backend, es[..|es| - 1], i, address, key)
    requires Finds(backend, es, |es| - 1, address, key) ==> es[|es| - 1].block <= es[i].block
    ensures Governs(backend, es, i, address, key)
    ensures StoredBefore(backend, es, i, address, key) == StoredBefore(backend, es[..|es| - 1], i, address, key)
  {
    var init := es[..|es| - 1];
    FindsBefore(backend, es, address, key);
    FindsPrefix(backend, es, i, address, key);
    forall j: nat | Finds(backend, es, j, address, key)
      ensures (j < i ==> es[j].block < es[i].block) && es[j].block <= es[i].block
    {
      if j < |init| {
        assert Finds(backend, init, j, address, key) && init[j] == es[j];
      }
    }
  }

  /** A read that finds something in a newer block than all before becomes the governing one. */
  lemma NowGoverns(backend: Backend, es: seq<Event>, address: Address, key: Hash)
    requires Legal(es) && es != [] && Finds(backend, es, |es| - 1, address, key)
    requires Legal(es[..|es| - 1])
    requires forall j: nat | Finds(backend, es[..|es| - 1], j, address, key) :: es[j].block < es[|es| - 1].block
    ensures Governs(backend, es, |es| - 1, address, key)
  {
    FindsBefore(backend, es, address, key);
  }

  /** Whatever is cached for a key after any run is what the governing read found, and nothing is
      cached when no read found anything since the last revert. */
  lemma {:induction false} CacheIsGoverned(backend: Backend, es: seq<Event>, address: Address, key: Hash)
    returns (i: nat)
    requires Legal(es)
    ensures (address, key) in Run(backend, es).storage ==> CachedBy(backend, es, i, address, key)
    ensures (address, key) !in Run(backend, es).storage ==> forall j: nat :: !Finds(backend, es, j, address, key)
    decreases |es|
  {
    i := 0;
    if es != [] {
      StorageOfRun(backend, es, address, key);
      var last := |es| - 1;
      var init, e := es[..last], es[last];
      i := CacheIsGoverned(backend, init, address, key);
      if !e.Revert? {
        var slot, cached := (address, key), Run(backend, init).storage;
        FindsBefore(backend, es, address, key);
        if Finds(backend, es, last, address, key) && (slot in cached ==> cached[slot].block < e.block) {
          NowGoverns(backend, es, address, key);
          i := last;
        } else if slot in cached {
          StillGoverns(backend, es, i, address, key);
        }
      }
    }
  }

  /** What a read returns after any run: if the governing earlier read is not older than it, what was
      stored then; otherwise what is stored now. */
  lemma ReadIsGoverned(backend: Backend, es: seq<Event>, address: Address, key: Hash, block: nat)
    requires Legal(es)
    ensures var read := StorageGot(backend, Run(backend, es), address, key, block).1;
            && (forall i: nat | Governs(backend, es, i, address, key) ::
                  read == if es[i].block >= block then StoredBefore(backend, es, i, address, key)
                          else StoredBefore(backend, es, |es|, address, key))
            && ((forall i: nat :: !Governs(backend, es, i, address, key)) ==>
                  read == StoredBefore(backend, es, |es|, address, key))
  {
    var s := Run(backend, es);
    assert es[..|es|] == es;
    var i := CacheIsGoverned(backend, es, address, key);
    GetIsTransparent(s, address, block);
    forall j: nat | Governs(backend, es, j, address, key)
      ensures (address, key) in s.storage && j == i
    {
      assert Finds(backend, es, j, address, key);
    }
  }

  /** A read is current, whatever has been read and written, when its block is newer than those of
      all earlier reads of the key that found something since the last revert. */
  lemma NewerReadsAreCurrent(backend: Backend, es: seq<Event>, address: Address, key: Hash, block: nat)
    requires Legal(es)
    requires forall i: nat | Finds(backend, es, i, address, key) :: es[i].block < block
    ensures StorageGot(backend, Run(backend, es), address, key, block).1
         == Stored(backend, Run(backend, es).trie, address, key)
  {
    assert es[..|es|] == es;
    ReadIsGoverned(backend, es, address, key, block);
    forall i: nat | Governs(backend, es, i, address, key)
      ensures es[i].block < block
    {
    }
  }

  /** When a batch's effect on a key is seen: a read after it returns what is stored then exactly
      when its block is newer than the cached one, or what was cached is stored again. */
  lemma BatchIsSeenExactly(
      backend: Backend, s: State, batch: Batch, order: seq<Address>, number: nat,
      address: Address, key: Hash, block: nat)
    requires Coherent(s) && Enumerates(order, batch.Keys)
    ensures forall a | a in order :: a in batch
    ensures var t := BatchApplied(backend, s, batch, order, number).0;
            var slot := (address, key);
            StorageGot(backend, t, address, key, block).1 == Stored(backend, t.trie, address, key)
            <==> (slot in s.storage && s.storage[slot].block >= block ==>
                    Stored(backend, t.trie, address, key) == Ok(Some(s.storage[slot].value)))
  {
    BatchKeepsStorage(backend, s, batch, order, number);
    BatchKeepsCoherent(backend, s, batch, order, number);
    GetIsTransparent(BatchApplied(backend, s, batch, order, number).0, address, block);
  }

  // ---------- Reverting ----------

  /** What is left of a run's state once it serves `snapshot` and nothing else. */
  ghost predicate Shows(backend: Backend, s: State, snapshot: Trie) {
    && s.trie == snapshot && Coherent(s)
    && forall slot | slot in s.storage ::
         Stored(backend, snapshot, slot.0, slot.1) == Ok(Some(s.storage[slot].value))
  }

  predicate OnlyReads(es: seq<Event>) {
    forall e | e in es :: e.GetAccount? || e.GetStorage?
  }

  lemma ReadKeepsShown(backend: Backend, s: State, snapshot: Trie, e: Event)
    requires Shows(backend, s, snapshot)
    ensures e.GetAccount? ==> Shows(backend, AccountGot(s, e.address, e.block).0, snapshot)
    ensures e.GetStorage? ==> Shows(backend, StorageGot(backend, s, e.address, e.key, e.block).0, snapshot)
  {
    if e.GetAccount? || e.GetStorage? {
      GetIsTransparent(s, e.address, e.block);
    }
  }

  lemma RevertRuns(backend: Backend, es: seq<Event>, snapshot: Trie)
    requires Legal(es)
    ensures Legal(es + [Revert(snapshot)])
    ensures Run(backend, es + [Revert(snapshot)]) == State(snapshot, map[], map[])
  {
    assert (es + [Revert(snapshot)])[..|es|] == es;
  }

  lemma {:induction false} ReadsKeepShown(backend: Backend, es: seq<Event>, snapshot: Trie, after: seq<Event>)
    requires Legal(es) && OnlyReads(after)
    ensures Legal(es + [Revert(snapshot)] + after)
    ensures Shows(backend, Run(backend, es + [Revert(snapshot)] + after), snapshot)
    decreases |after|
  {
    var start := es + [Revert(snapshot)];
    RevertRuns(backend, es, snapshot);
    if after == [] {
      assert start + after == start;
    } else {
      var init, e := after[..|after| - 1], after[|after| - 1];
      ReadsKeepShown(backend, es, snapshot, init);
      var all := start + after;
      assert all[..|all| - 1] == start + init && all[|all| - 1] == e;
      assert e in after;
      ReadKeepsShown(backend, Run(backend, start + init), snapshot, e);
    }
  }

  /** A revert restores the snapshot: whatever the run did before and whatever was cached, from then
      on, however often anything is read and at whatever blocks, every account after as the snapshot
      holds it, and every storage key as the storage manager holds it under that account's root. */
  lemma RevertRestores(
      backend: Backend, es: seq<Event>, snapshot: Trie, after: seq<Event>,
      address: Address, key: Hash, block: nat)
    requires Legal(es) && OnlyReads(after)
    ensures Legal(es + [Revert(snapshot)] + after)
    ensures var s := Run(backend, es + [Revert(snapshot)] + after);
            var account := AccountGot(s, address, block).1;
            var value := StorageGot(backend, s, address, key, block).1;
            && s.trie == snapshot
            && (if address !in snapshot then account == Ok(None) && value == Ok(None)
                else if snapshot[address].Malformed? then account == Err(InvalidState) && value == Err(InvalidState)
                else
                  && account == Ok(Some(snapshot[address].account))
                  && value == backend.readStorage(address, key, snapshot[address].account.storageRoot))
  {
    ReadsKeepShown(backend, es, snapshot, after);
    GetIsTransparent(Run(backend, es + [Revert(snapshot)] + after), address, block);
  }

  // ---------- A stale read ----------

  /** A storage manager whose root is its one value. */
  function OneValue(key: Hash): Backend {
    Backend(
      (address: Address, writes: map<Hash, Bytes>, root: Hash) => Some(if key in writes then writes[key] else root),
      (address: Address, read: Hash, root: Hash) => Ok(if read == key then Some(root) else None),
      (code: Bytes) => true,
      (code: Bytes) => code)
  }

  function WriteTo(address: Address, key: Hash, value: Bytes): Batch {
    map[address := AccountUpdate(None, map[], None, map[key := value], None)]
  }

  /** One write of the key by a run. */
  lemma WriteStores(s: State, address: Address, key: Hash, value: Bytes, number: nat)
    requires Coherent(s) && Decoded(s.trie, address).Ok?
    ensures var batch := WriteTo(address, key, value);
            var t := BatchApplied(OneValue(key), s, batch, [address], number).0;
            && Enumerates([address], batch.Keys)
            && Coherent(t) && t.storage == s.storage
            && Stored(OneValue(key), t.trie, address, key) == Ok(Some(value))
  {
    var backend, batch := OneValue(key), WriteTo(address, key, value);
    assert (set a | a in [address]) == {address} == batch.Keys;
    assert [address][..0] == [];
    assert BatchApplied(backend, s, batch, [], number) == (s, Ok(()));
    GetIsTransparent(s, address, number);
    UpdateKeepsCoherent(backend, s, address, batch[address], number);
    assert BatchApplied(backend, s, batch, [address], number).0
        == AccountUpdated(backend, s, address, batch[address], number).0;
    assert map[key := value] != map[] by { assert key in map[key := value]; }
  }

  /** A stale read: the value written in block 2 is not the one a read at block 2 returns, if the
      key was read at block 2 before. */
  lemma StaleRead(address: Address, key: Hash, earlier: Bytes, later: Bytes)
    requires earlier != later
    ensures var backend := OneValue(key);
            var es := [UpdateState(WriteTo(address, key, earlier), [address], 1)] + [GetStorage(address, key, 2)]
                    + [UpdateState(WriteTo(address, key, later), [address], 2)];
            && Legal(es)
            && Stored(backend, Run(backend, es).trie, address, key) == Ok(Some(later))
            && StorageGot(backend, Run(backend, es), address, key, 2).1 == Ok(Some(earlier))
  {
    var backend := OneValue(key);
    var first, second := WriteTo(address, key, earlier), WriteTo(address, key, later);
    WriteStores(EMPTY, address, key, earlier, 1);
    var s1 := BatchApplied(backend, EMPTY, first, [address], 1).0;
    BatchRuns(backend, [], first, [address], 1);
    assert [] + [UpdateState(first, [address], 1)] == [UpdateState(first, [address], 1)];
    ReadCaches(s1, address, key, earlier, 2);
    var s2 := StorageGot(backend, s1, address, key, 2).0;
    ReadRuns(backend, [UpdateState(first, [address], 1)], address, key, 2);
    WriteStores(s2, address, key, later, 2);
    BatchRuns(backend, [UpdateState(first, [address], 1)] + [GetStorage(address, key, 2)], second, [address], 2);
  }

  lemma BatchRuns(backend: Backend, es: seq<Event>, batch: Batch, order: seq<Address>, number: nat)
    requires Legal(es) && Enumerates(order, batch.Keys)
    ensures Legal(es + [UpdateState(batch, order, number)])
    ensures forall a | a in order :: a in batch
    ensures Run(backend, es + [UpdateState(batch, order, number)])
         == BatchApplied(backend, Run(backend, es), batch, order, number).0
  {
    EnumeratedAddresses(order, batch);
    assert (es + [UpdateState(batch, order, number)])[..|es|] == es;
  }

  lemma ReadRuns(backend: Backend, es: seq<Event>, address: Address, key: Hash, block: nat)
    requires Legal(es)
    ensures Legal(es + [GetStorage(address, key, block)])
    ensures Run(backend, es + [GetStorage(address, key, block)])
         == StorageGot(backend, Run(backend, es), address, key, block).0
  {
    assert (es + [GetStorage(address, key, block)])[..|es|] == es;
  }

  lemma ReadCaches(s: State, address: Address, key: Hash, value: Bytes, block: nat)
    requires Coherent(s) && Stored(OneValue(key), s.trie, address, key) == Ok(Some(value))
    requires (address, key) !in s.storage
    ensures var t := StorageGot(OneValue(key), s, address, key, block).0;
            && Coherent(t) && t.trie == s.trie
            && (address, key) in t.storage && t.storage[(address, key)] == CachedBytes(value, block)
  {
    GetIsTransparent(s, address, block);
  }
}
