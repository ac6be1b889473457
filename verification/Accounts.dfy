/** Accounts in the state trie and their storage, behind block-stamped caches (src/state/mod.rs). */
module Accounts {
  import opened Collections

  type Bytes = seq<byte>
  type Address = Bytes
  type Hash = Bytes

  datatype Account = Account(
    nonce: nat,
    balance: map<nat, nat>,
    pubKeyHash: Bytes,
    storageRoot: Hash,
    codeHash: Hash,
    lastModifiedBlock: nat)

  datatype AccountUpdate = AccountUpdate(
    nonce: Option<nat>,
    balance: map<nat, nat>,
    pubKeyHash: Option<Bytes>,
    storage: map<Hash, Bytes>,
    code: Option<Bytes>)

  /** What the trie holds for an address: a serialised account, or bytes that are not one. */
  datatype Entry = Encoded(account: Account) | Malformed(bytes: Bytes)

  type Trie = map<Address, Entry>

  datatype Error = InvalidState | StorageError

  datatype Result<+T> = Ok(value: T) | Err(error: Error)

  /** The storage manager: the root after writing to an address's storage, what a key of an
      address's storage holds under a root, whether code can be stored, and the hash that names code. */
  datatype Backend = Backend(
    updateStorage: (Address, map<Hash, Bytes>, Hash) -> Option<Hash>,
    readStorage: (Address, Hash, Hash) -> Result<Option<Bytes>>,
    storesCode: Bytes -> bool,
    codeHash: Bytes -> Hash)

  /** A cached account and the block it was cached at. */
  datatype Cached = Cached(account: Account, block: nat)

  /** A cached storage value and the block it was cached at. */
  datatype CachedBytes = CachedBytes(value: Bytes, block: nat)

  datatype State = State(
    trie: Trie,
    accounts: map<Address, Cached>,
    storage: map<(Address, Hash), CachedBytes>)

  const EMPTY := State(map[], map[], map[])

  function NewAccount(block: nat): Account {
    Account(0, map[], [], [], [], block)
  }

  // ---------- Operations ----------

  function AccountGot(s: State, address: Address, block: nat): (State, Result<Option<Account>>) {
    if address in s.accounts && s.accounts[address].block >= block then (s, Ok(Some(s.accounts[address].account)))
    else if address !in s.trie then (s, Ok(None))
    else
      match s.trie[address]
      case Malformed(_) => (s, Err(InvalidState))
      case Encoded(account) => (s.(accounts := s.accounts[address := Cached(account, block)]), Ok(Some(account)))
  }

  /** Only values found are cached, and with the block of the read. */
  function StorageGot(backend: Backend, s: State, address: Address, key: Hash, block: nat)
    : (State, Result<Option<Bytes>>)
  {
    if (address, key) in s.storage && s.storage[(address, key)].block >= block
    then (s, Ok(Some(s.storage[(address, key)].value)))
    else
      var (got, found) := AccountGot(s, address, block);
      match found
      case Err(e) => (got, Err(e))
      case Ok(None) => (got, Ok(None))
      case Ok(Some(account)) =>
        var read := backend.readStorage(address, key, account.storageRoot);
        if read.Ok? && read.value.Some?
        then (got.(storage := got.storage[(address, key) := CachedBytes(read.value.value, block)]), read)
        else (got, read)
  }

  /** The fields an update sets before it touches storage. */
  function FieldsUpdated(account: Account, update: AccountUpdate): Account {
    account.(nonce := if update.nonce.Some? then update.nonce.value else account.nonce,
             balance := account.balance + update.balance,
             pubKeyHash := if update.pubKeyHash.Some? then update.pubKeyHash.value else account.pubKeyHash)
  }

  /** The account after an update, unless the storage manager fails. */
  function AccountChanged(backend: Backend, address: Address, account: Account, update: AccountUpdate, block: nat)
    : Result<Account>
  {
    var fields := FieldsUpdated(account, update);
    var root := if update.storage == map[] then Some(fields.storageRoot)
                else backend.updateStorage(address, update.storage, fields.storageRoot);
    if root.None? then Err(StorageError)
    else if update.code.Some? && !backend.storesCode(update.code.value) then Err(StorageError)
    else
      Ok(fields.(storageRoot := root.value,
                 codeHash := if update.code.Some? then backend.codeHash(update.code.value) else fields.codeHash,
                 lastModifiedBlock := block))
  }

  function AccountUpdated(backend: Backend, s: State, address: Address, update: AccountUpdate, block: nat)
    : (State, Result<()>)
  {
    var (got, found) := AccountGot(s, address, block);
    match found
    case Err(e) => (got, Err(e))
    case Ok(existing) =>
      var account := if existing.Some? then existing.value else NewAccount(block);
      match AccountChanged(backend, address, account, update, block)
      case Err(e) => (got, Err(e))
      case Ok(changed) =>
        (got.(trie := got.trie[address := Encoded(changed)],
              accounts := got.accounts[address := Cached(changed, block)]), Ok(()))
  }

  type Batch = map<Address, AccountUpdate>

  /** A batch, its updates completing in `order`. Every update runs; the first error to complete is reported. */
  function BatchApplied(backend: Backend, s: State, batch: Batch, order: seq<Address>, block: nat)
    : (State, Result<()>)
    requires forall a | a in order :: a in batch
    decreases |order|
  {
    if order == [] then (s, Ok(()))
    else
      var (before, result) := BatchApplied(backend, s, batch, order[..|order| - 1], block);
      var last := order[|order| - 1];
      var (after, own) := AccountUpdated(backend, before, last, batch[last], block);
      (after, if result.Ok? then own else result)
  }

  /** The trie is replaced by a snapshot's and the caches are emptied. */
  function Reverted(s: State, snapshot: Trie): State {
    State(snapshot, map[], map[])
  }

  // ---------- The manager object ----------

  class StateManager {
    const backend: Backend
    var trie: Trie
    var accounts: map<Address, Cached>
    var storage: map<(Address, Hash), CachedBytes>

    function View(): State
      reads this
    {
      State(trie, accounts, storage)
    }

    constructor (backend: Backend)
      ensures this.backend == backend && View() == EMPTY
    {
      this.backend := backend;
      trie, accounts, storage := map[], map[], map[];
    }

    method GetAccount(address: Address, block: nat) returns (r: Result<Option<Account>>)
      modifies this`accounts
      ensures (View(), r) == AccountGot(old(View()), address, block)
    {
      if address in accounts {
        var cached := accounts[address];
        if cached.block >= block {
          return Ok(Some(cached.account));
        }
      }
      if address !in trie {
        return Ok(None);
      }
      var entry := trie[address];
      if entry.Malformed? {
        return Err(InvalidState);
      }
      accounts := accounts[address := Cached(entry.account, block)];
      return Ok(Some(entry.account));
    }

    method GetStorage(address: Address, key: Hash, block: nat) returns (r: Result<Option<Bytes>>)
      modifies this`accounts, this`storage
      ensures (View(), r) == StorageGot(backend, old(View()), address, key, block)
    {
      if (address, key) in storage {
        var cached := storage[(address, key)];
        if cached.block >= block {
          return Ok(Some(cached.value));
        }
      }
      var found := GetAccount(address, block);
      if found.Err? {
        return Err(found.error);
      }
      if found.value.None? {
        return Ok(None);
      }
      r := backend.readStorage(address, key, found.value.value.storageRoot);
      if r.Ok? && r.value.Some? {
        storage := storage[(address, key) := CachedBytes(r.value.value, block)];
      }
    }

    /** Inserts every balance of an update, token by token. */
    method MergeBalances(balance: map<nat, nat>, changes: map<nat, nat>) returns (merged: map<nat, nat>)
      ensures merged == balance + changes
    {
      merged := balance;
      var left := changes.Keys;
      while left != {}
        invariant left <= changes.Keys
        invariant merged == balance + (map t | t in changes && t !in left :: changes[t])
        decreases left
      {
        var token :| token in left;
        merged := merged[token := changes[token]];
        left := left - {token};
      }
      assert (map t | t in changes && t !in left :: changes[t]) == changes;
    }

    method UpdateAccount(address: Address, update: AccountUpdate, block: nat) returns (r: Result<()>)
      modifies this
      ensures (View(), r) == AccountUpdated(backend, old(View()), address, update, block)
    {
      var found := GetAccount(address, block);
      if found.Err? {
        return Err(found.error);
      }
      var account := if found.value.Some? then found.value.value else NewAccount(block);
      if update.nonce.Some? {
        account := account.(nonce := update.nonce.value);
      }
      var balance := MergeBalances(account.balance, update.balance);
      account := account.(balance := balance);
      if update.pubKeyHash.Some? {
        account := account.(pubKeyHash := update.pubKeyHash.value);
      }
      if update.storage != map[] {
        var root := backend.updateStorage(address, update.storage, account.storageRoot);
        if root.None? {
          return Err(StorageError);
        }
        account := account.(storageRoot := root.value);
      }
      if update.code.Some? {
        if !backend.storesCode(update.code.value) {
          return Err(StorageError);
        }
        account := account.(codeHash := backend.codeHash(update.code.value));
      }
      account := account.(lastModifiedBlock := block);
      trie := trie[address := Encoded(account)];
      accounts := accounts[address := Cached(account, block)];
      return Ok(());
    }

    method UpdateState(batch: Batch, order: seq<Address>, block: nat) returns (r: Result<()>)
      requires Enumerates(order, batch.Keys)
      modifies this
      ensures forall a | a in order :: a in batch
      ensures (View(), r) == BatchApplied(backend, old(View()), batch, order, block)
    {
      EnumeratedAddresses(order, batch);
      r := Ok(());
      for i := 0 to |order|
        invariant forall a | a in order[..i] :: a in batch
        invariant (View(), r) == BatchApplied(backend, old(View()), batch, order[..i], block)
      {
        assert order[..i + 1][..i] == order[..i];
        var own := UpdateAccount(order[i], batch[order[i]], block);
        r := if r.Ok? then own else r;
      }
      assert order[..|order|] == order;
    }

    method RevertToSnapshot(snapshot: Trie)
      modifies this
      ensures View() == Reverted(old(View()), snapshot)
    {
      trie := snapshot;
      accounts, storage := map[], map[];
    }
  }

  lemma EnumeratedAddresses(order: seq<Address>, batch: Batch)
    requires Enumerates(order, batch.Keys)
    ensures forall a :: a in order <==> a in batch
  {
    EnumeratedMembers(order, batch.Keys);
  }

  // ---------- The cache is transparent ----------

  /** Every cached account is the one the trie holds. */
  ghost predicate Coherent(s: State) {
    forall a | a in s.accounts :: a in s.trie && s.trie[a] == Encoded(s.accounts[a].account)
  }

  /** What decoding the trie gives for an address. */
  function Decoded(trie: Trie, address: Address): Result<Option<Account>> {
    if address !in trie then Ok(None)
    else if trie[address].Malformed? then Err(InvalidState)
    else Ok(Some(trie[address].account))
  }

  lemma GetIsTransparent(s: State, address: Address, block: nat)
    requires Coherent(s)
    ensures AccountGot(s, address, block).1 == Decoded(s.trie, address)
    ensures Coherent(AccountGot(s, address, block).0) && AccountGot(s, address, block).0.trie == s.trie
  {
  }

  /** What caching does: an account found by a read is served without looking at the trie, whatever it
      holds by then, at every block up to that of the read, and looked up again at every later one;
      an update does the same for the account it leaves. */
  lemma CachedUpToBlock(
      backend: Backend, s: State, address: Address, update: AccountUpdate, block: nat, trie: Trie, later: nat)
    requires Coherent(s)
    ensures var (t, r) := AccountGot(s, address, block);
            var read := AccountGot(t.(trie := trie), address, later).1;
            r.Ok? && r.value.Some? && later <= block ==> read == r
    ensures var (t, r) := AccountUpdated(backend, s, address, update, block);
            var read := AccountGot(t.(trie := trie), address, later).1;
            r.Ok? ==>
              && address in t.trie && t.trie[address].Encoded?
              && read == (if later <= block then Ok(Some(t.trie[address].account)) else Decoded(trie, address))
  {
  }

  lemma StorageGotKeepsCoherent(backend: Backend, s: State, address: Address, key: Hash, block: nat)
    requires Coherent(s)
    ensures var t := StorageGot(backend, s, address, key, block).0;
            Coherent(t) && t.trie == s.trie
  {
    GetIsTransparent(s, address, block);
  }

  lemma UpdateKeepsCoherent(backend: Backend, s: State, address: Address, update: AccountUpdate, block: nat)
    requires Coherent(s)
    ensures Coherent(AccountUpdated(backend, s, address, update, block).0)
  {
    GetIsTransparent(s, address, block);
  }

  lemma {:induction false} BatchKeepsCoherent(
      backend: Backend, s: State, batch: Batch, order: seq<Address>, block: nat)
    requires Coherent(s)
    requires forall a | a in order :: a in batch
    ensures Coherent(BatchApplied(backend, s, batch, order, block).0)
    decreases |order|
  {
    if order != [] {
      var init, last := order[..|order| - 1], order[|order| - 1];
      BatchKeepsCoherent(backend, s, batch, init, block);
      UpdateKeepsCoherent(backend, BatchApplied(backend, s, batch, init, block).0, last, batch[last], block);
    }
  }

  datatype Event =
    | GetAccount(address: Address, block: nat)
    | GetStorage(address: Address, key: Hash, block: nat)
    | UpdateState(batch: Batch, order: seq<Address>, number: nat)
    | Revert(snapshot: Trie)

  ghost predicate Legal(es: seq<Event>) {
    forall e | e in es && e.UpdateState? :: Enumerates(e.order, e.batch.Keys)
  }

  ghost function Run(backend: Backend, es: seq<Event>): (s: State)
    requires Legal(es)
    ensures Coherent(s)
  {
    if es == [] then EMPTY
    else
      var before := Run(backend, es[..|es| - 1]);
      assert es[|es| - 1] in es;
      match es[|es| - 1]
      case GetAccount(address, block) => GetIsTransparent(before, address, block); AccountGot(before, address, block).0
      case GetStorage(address, key, block) =>
        StorageGotKeepsCoherent(backend, before, address, key, block);
        StorageGot(backend, before, address, key, block).0
      case UpdateState(batch, order, number) =>
        EnumeratedAddresses(order, batch);
        BatchKeepsCoherent(backend, before, batch, order, number);
        BatchApplied(backend, before, batch, order, number).0
      case Revert(snapshot) => Reverted(before, snapshot)
  }

  /** Cache transparency: after any run of reads, batches and reverts, asking for an account at any
      block number gives exactly what decoding the trie gives. */
  lemma CacheIsTransparent(backend: Backend, es: seq<Event>, address: Address, block: nat)
    requires Legal(es)
    ensures AccountGot(Run(backend, es), address, block).1 == Decoded(Run(backend, es).trie, address)
  {
    GetIsTransparent(Run(backend, es), address, block);
  }

  // ---------- Batches do not depend on completion order ----------

  /** All a state knows about one address. */
  datatype Slot = Slot(entry: Option<Entry>, cached: Option<Cached>)

  function SlotOf(s: State, address: Address): Slot {
    Slot(if address in s.trie then Some(s.trie[address]) else None,
         if address in s.accounts then Some(s.accounts[address]) else None)
  }

  /** The account an update starts from, looking at one slot. */
  function SlotAccount(slot: Slot, block: nat): Result<Account> {
    if slot.cached.Some? && slot.cached.value.block >= block then Ok(slot.cached.value.account)
    else
      match slot.entry
      case None => Ok(NewAccount(block))
      case Some(Malformed(_)) => Err(InvalidState)
      case Some(Encoded(account)) => Ok(account)
  }

  /** What an update does to its own slot. */
  function SlotUpdated(backend: Backend, address: Address, slot: Slot, update: AccountUpdate, block: nat)
    : (Slot, Result<()>)
  {
    var refreshed :=
      if slot.cached.Some? && slot.cached.value.block >= block then slot
      else if slot.entry.Some? && slot.entry.value.Encoded? then
        slot.(cached := Some(Cached(slot.entry.value.account, block)))
      else slot;
    match SlotAccount(slot, block)
    case Err(e) => (refreshed, Err(e))
    case Ok(account) =>
      match AccountChanged(backend, address, account, update, block)
      case Err(e) => (refreshed, Err(e))
      case Ok(changed) => (Slot(Some(Encoded(changed)), Some(Cached(changed, block))), Ok(()))
  }

  /** An update touches its own address only, and depends on nothing else. */
  lemma UpdateIsLocal(backend: Backend, s: State, address: Address, update: AccountUpdate, block: nat, other: Address)
    ensures var (t, r) := AccountUpdated(backend, s, address, update, block);
            && (SlotOf(t, address), r) == SlotUpdated(backend, address, SlotOf(s, address), update, block)
            && (other != address ==> SlotOf(t, other) == SlotOf(s, other))
            && t.storage == s.storage
  {
  }

  /** A batch updates each of its addresses once, from the slot it had before the batch. */
  lemma {:induction false} BatchIsPointwise(
      backend: Backend, s: State, batch: Batch, order: seq<Address>, block: nat, address: Address)
    requires forall a | a in order :: a in batch
    requires forall i, j | 0 <= i < j < |order| :: order[i] != order[j]
    ensures var t := BatchApplied(backend, s, batch, order, block).0;
            && t.storage == s.storage
            && SlotOf(t, address)
               == if address in order then SlotUpdated(backend, address, SlotOf(s, address), batch[address], block).0
                  else SlotOf(s, address)
    ensures BatchApplied(backend, s, batch, order, block).1.Ok?
            <==> forall a | a in order :: SlotUpdated(backend, a, SlotOf(s, a), batch[a], block).1.Ok?
    decreases |order|
  {
    if order != [] {
      var init, last := order[..|order| - 1], order[|order| - 1];
      var before := BatchApplied(backend, s, batch, init, block).0;
      assert order == init + [last] && last !in init;
      BatchIsPointwise(backend, s, batch, init, block, address);
      BatchIsPointwise(backend, s, batch, init, block, last);
      UpdateIsLocal(backend, before, last, batch[last], block, address);
    }
  }

  /** Confluence: whatever order the updates of a batch complete in, the trie and the cache end up
      the same, and the batch succeeds in one order exactly when it succeeds in the other. */
  lemma BatchIsConfluent(
      backend: Backend, s: State, batch: Batch, order: seq<Address>, other: seq<Address>, block: nat)
    requires Enumerates(order, batch.Keys) && Enumerates(other, batch.Keys)
    ensures forall a :: (a in order <==> a in batch) && (a in other <==> a in batch)
    ensures BatchApplied(backend, s, batch, order, block).0 == BatchApplied(backend, s, batch, other, block).0
    ensures BatchApplied(backend, s, batch, order, block).1.Ok? <==> BatchApplied(backend, s, batch, other, block).1.Ok?
  {
    EnumeratedAddresses(order, batch);
    EnumeratedAddresses(other, batch);
    var t := BatchApplied(backend, s, batch, order, block).0;
    var u := BatchApplied(backend, s, batch, other, block).0;
    forall a
      ensures SlotOf(t, a) == SlotOf(u, a)
    {
      BatchIsPointwise(backend, s, batch, order, block, a);
      BatchIsPointwise(backend, s, batch, other, block, a);
    }
    BatchIsPointwise(backend, s, batch, order, block, []);
    BatchIsPointwise(backend, s, batch, other, block, []);
    SameSlotsSameState(t, u);
  }

  lemma SameSlotsSameState(t: State, u: State)
    requires t.storage == u.storage && forall a :: SlotOf(t, a) == SlotOf(u, a)
    ensures t == u
  {
    forall a
      ensures a in t.trie <==> a in u.trie
      ensures a in t.trie ==> t.trie[a] == u.trie[a]
      ensures a in t.accounts <==> a in u.accounts
      ensures a in t.accounts ==> t.accounts[a] == u.accounts[a]
    {
      assert SlotOf(t, a) == SlotOf(u, a);
    }
    assert t.trie == u.trie;
    assert t.accounts == u.accounts;
  }

  /** Read your batch: after a batch that succeeds, each of its addresses reads, at any block number,
      as the account it had before with that address's update applied. */
  lemma BatchIsReadBack(
      backend: Backend, s: State, batch: Batch, order: seq<Address>, block: nat,
      address: Address, later: nat)
    requires Coherent(s) && Enumerates(order, batch.Keys) && address in batch
    ensures forall a | a in order :: a in batch
    ensures var (t, r) := BatchApplied(backend, s, batch, order, block);
            r.Ok? ==>
              && Decoded(s.trie, address).Ok?
              && var before := Decoded(s.trie, address).value;
                 var account := if before.Some? then before.value else NewAccount(block);
                 var changed := AccountChanged(backend, address, account, batch[address], block);
                 changed.Ok? && AccountGot(t, address, later).1 == Ok(Some(changed.value))
  {
    EnumeratedAddresses(order, batch);
    BatchIsPointwise(backend, s, batch, order, block, address);
    BatchKeepsCoherent(backend, s, batch, order, block);
    GetIsTransparent(BatchApplied(backend, s, batch, order, block).0, address, later);
  }

  // ---------- Two batches are one ----------

  /** The later update over the earlier one: what it names wins, the rest stays named. */
  function Merged(earlier: AccountUpdate, later: AccountUpdate): AccountUpdate {
    AccountUpdate(
      if later.nonce.Some? then later.nonce else earlier.nonce,
      earlier.balance + later.balance,
      if later.pubKeyHash.Some? then later.pubKeyHash else earlier.pubKeyHash,
      earlier.storage + later.storage,
      if later.code.Some? then later.code else earlier.code)
  }

  /** Two successful updates of an account are their merge, exactly when the storage manager gives
      the merged writes the root it gave the later ones (or only one of them writes storage). */
  lemma UpdatesMerge(
      backend: Backend, address: Address, account: Account, earlier: AccountUpdate, later: AccountUpdate,
      block: nat, second: nat)
    requires AccountChanged(backend, address, account, earlier, block).Ok?
    requires AccountChanged(backend, address, AccountChanged(backend, address, account, earlier, block).value,
                            later, second).Ok?
    ensures var middle := AccountChanged(backend, address, account, earlier, block).value;
            var twice := AccountChanged(backend, address, middle, later, second);
            AccountChanged(backend, address, account, Merged(earlier, later), second) == twice
            <==> (earlier.storage != map[] && later.storage != map[] ==>
                    backend.updateStorage(address, earlier.storage + later.storage, account.storageRoot)
                    == Some(twice.value.storageRoot))
  {
    assert (account.balance + earlier.balance) + later.balance == account.balance + (earlier.balance + later.balance);
    assert later.storage == map[] ==> earlier.storage + later.storage == earlier.storage;
    assert earlier.storage == map[] ==> earlier.storage + later.storage == later.storage;
    assert forall k | k in earlier.storage :: k in earlier.storage + later.storage;
    assert earlier.storage != map[] ==> earlier.storage + later.storage != map[];
  }

  /** Writing one set of values and then another is writing both, the later ones winning. */
  ghost predicate WritesCompose(
      backend: Backend, address: Address, earlier: map<Hash, Bytes>, later: map<Hash, Bytes>)
  {
    forall root :: var middle := backend.updateStorage(address, earlier, root);
      middle.Some? ==>
        backend.updateStorage(address, later, middle.value) == backend.updateStorage(address, earlier + later, root)
  }

  function MergedBatch(earlier: Batch, later: Batch): Batch {
    map a | a in earlier.Keys + later.Keys ::
      if a !in later then earlier[a] else if a !in earlier then later[a] else Merged(earlier[a], later[a])
  }

  lemma SlotUpdatesMerge(
      backend: Backend, address: Address, slot: Slot, earlier: AccountUpdate, later: AccountUpdate, block: nat)
    requires earlier.storage != map[] && later.storage != map[] ==>
               WritesCompose(backend, address, earlier.storage, later.storage)
    ensures var (middle, r) := SlotUpdated(backend, address, slot, earlier, block);
            var (twice, q) := SlotUpdated(backend, address, middle, later, block);
            r.Ok? && q.Ok? ==>
              SlotUpdated(backend, address, slot, Merged(earlier, later), block) == (twice, Ok(()))
  {
    var (middle, r) := SlotUpdated(backend, address, slot, earlier, block);
    var (twice, q) := SlotUpdated(backend, address, middle, later, block);
    if r.Ok? && q.Ok? {
      UpdatesMerge(backend, address, SlotAccount(slot, block).value, earlier, later, block, block);
    }
  }

  /** What a batch does to one slot. */
  function SlotAfter(backend: Backend, address: Address, slot: Slot, batch: Batch, block: nat): (Slot, Result<()>) {
    if address in batch then SlotUpdated(backend, address, slot, batch[address], block) else (slot, Ok(()))
  }

  lemma SlotsMerge(backend: Backend, address: Address, slot: Slot, earlier: Batch, later: Batch, block: nat)
    requires address in earlier && address in later
             && earlier[address].storage != map[] && later[address].storage != map[] ==>
               WritesCompose(backend, address, earlier[address].storage, later[address].storage)
    ensures var (middle, r) := SlotAfter(backend, address, slot, earlier, block);
            var (twice, q) := SlotAfter(backend, address, middle, later, block);
            r.Ok? && q.Ok? ==>
              SlotAfter(backend, address, slot, MergedBatch(earlier, later), block) == (twice, Ok(()))
  {
    if address in earlier && address in later {
      SlotUpdatesMerge(backend, address, slot, earlier[address], later[address], block);
    }
  }

  /** BatchIsPointwise, for a batch in any order of all its addresses. */
  lemma BatchUpdatesSlots(backend: Backend, s: State, batch: Batch, order: seq<Address>, block: nat)
    requires Enumerates(order, batch.Keys)
    ensures forall a :: a in order <==> a in batch
    ensures var (t, r) := BatchApplied(backend, s, batch, order, block);
            && t.storage == s.storage
            && (forall a :: SlotOf(t, a) == SlotAfter(backend, a, SlotOf(s, a), batch, block).0)
            && (r.Ok? <==> forall a :: SlotAfter(backend, a, SlotOf(s, a), batch, block).1.Ok?)
  {
    EnumeratedAddresses(order, batch);
    BatchIsPointwise(backend, s, batch, order, block, []);
    var t := BatchApplied(backend, s, batch, order, block).0;
    forall a
      ensures SlotOf(t, a) == SlotAfter(backend, a, SlotOf(s, a), batch, block).0
    {
      BatchIsPointwise(backend, s, batch, order, block, a);
    }
  }

  /** Two batches of one block that both succeed leave exactly what the one merged batch leaves,
      which succeeds too, provided the storage manager composes the writes of the addresses that
      write storage in both. */
  lemma BatchesMerge(
      backend: Backend, s: State, earlier: Batch, later: Batch,
      order: seq<Address>, laterOrder: seq<Address>, mergedOrder: seq<Address>, block: nat)
    requires Enumerates(order, earlier.Keys) && Enumerates(laterOrder, later.Keys)
    requires Enumerates(mergedOrder, MergedBatch(earlier, later).Keys)
    requires forall a | a in earlier && a in later && earlier[a].storage != map[] && later[a].storage != map[] ::
               WritesCompose(backend, a, earlier[a].storage, later[a].storage)
    ensures forall a :: (a in order <==> a in earlier) && (a in laterOrder <==> a in later)
    ensures forall a :: a in mergedOrder <==> a in MergedBatch(earlier, later)
    ensures var (t, r) := BatchApplied(backend, s, earlier, order, block);
            var (u, q) := BatchApplied(backend, t, later, laterOrder, block);
            r.Ok? && q.Ok? ==>
              BatchApplied(backend, s, MergedBatch(earlier, later), mergedOrder, block) == (u, Ok(()))
  {
    var merged := MergedBatch(earlier, later);
    BatchUpdatesSlots(backend, s, earlier, order, block);
    var (t, r) := BatchApplied(backend, s, earlier, order, block);
    BatchUpdatesSlots(backend, t, later, laterOrder, block);
    var (u, q) := BatchApplied(backend, t, later, laterOrder, block);
    BatchUpdatesSlots(backend, s, merged, mergedOrder, block);
    var (v, p) := BatchApplied(backend, s, merged, mergedOrder, block);
    if r.Ok? && q.Ok? {
      forall a
        ensures SlotAfter(backend, a, SlotOf(s, a), merged, block) == (SlotOf(u, a), Ok(()))
      {
        SlotsMerge(backend, a, SlotOf(s, a), earlier, later, block);
      }
      SameSlotsSameState(u, v);
    }
  }

  // ---------- What a batch leaves in an account ----------

  /** The account the trie holds for an address, and for an unknown one an empty account. */
  function Held(trie: Trie, address: Address): Account {
    if address in trie && trie[address].Encoded? then trie[address].account else Account(0, map[], [], [], [], 0)
  }

  /** Why an update cannot be applied: the trie's bytes are no account, or the storage manager fails
      to write storage or code. */
  function Fault(backend: Backend, trie: Trie, address: Address, update: AccountUpdate): Option<Error> {
    if address in trie && trie[address].Malformed? then Some(InvalidState)
    else if update.storage != map[]
            && backend.updateStorage(address, update.storage, Held(trie, address).storageRoot) == None
    then Some(StorageError)
    else if update.code.Some? && !backend.storesCode(update.code.value) then Some(StorageError)
    else None
  }

  /** `now` is `was` with an update applied in a block, field by field and token by token. */
  ghost predicate IsUpdated(
      backend: Backend, address: Address, was: Account, update: AccountUpdate, block: nat, now: Account)
  {
    && now.nonce == (if update.nonce.Some? then update.nonce.value else was.nonce)
    && (forall token :: token in now.balance <==> token in update.balance || token in was.balance)
    && (forall token | token in now.balance ::
          now.balance[token] == if token in update.balance then update.balance[token] else was.balance[token])
    && now.pubKeyHash == (if update.pubKeyHash.Some? then update.pubKeyHash.value else was.pubKeyHash)
    && (update.storage == map[] ==> now.storageRoot == was.storageRoot)
    && (update.storage != map[] ==>
          backend.updateStorage(address, update.storage, was.storageRoot) == Some(now.storageRoot))
    && now.codeHash == (if update.code.Some? then backend.codeHash(update.code.value) else was.codeHash)
    && now.lastModifiedBlock == block
  }

  lemma SlotUpdateExactly(
      backend: Backend, s: State, address: Address, update: AccountUpdate, block: nat)
    requires Coherent(s)
    ensures var (slot, r) := SlotUpdated(backend, address, SlotOf(s, address), update, block);
            var fault := Fault(backend, s.trie, address, update);
            && r == (if fault.Some? then Err(fault.value) else Ok(()))
            && (if fault.Some? then slot.entry == SlotOf(s, address).entry
                else && slot.entry.Some? && slot.entry.value.Encoded?
                     && IsUpdated(backend, address, Held(s.trie, address), update, block, slot.entry.value.account))
  {
    var account := SlotAccount(SlotOf(s, address), block);
    if account.Ok? {
      assert account.value == Held(s.trie, address).(lastModifiedBlock := account.value.lastModifiedBlock);
    }
  }

  /** The first update of a batch, in order of completion, that has a fault. */
  function FirstFault(backend: Backend, trie: Trie, batch: Batch, order: seq<Address>): Option<Error>
    requires forall a | a in order :: a in batch
  {
    if order == [] then None
    else
      var fault := Fault(backend, trie, order[0], batch[order[0]]);
      if fault.Some? then fault else FirstFault(backend, trie, batch, order[1..])
  }

  lemma {:induction false} FirstFaultAppends(
      backend: Backend, trie: Trie, batch: Batch, order: seq<Address>, last: Address)
    requires forall a | a in order :: a in batch
    requires last in batch
    ensures FirstFault(backend, trie, batch, order + [last])
         == var fault := FirstFault(backend, trie, batch, order);
            if fault.Some? then fault else Fault(backend, trie, last, batch[last])
  {
    if order == [] {
      assert [last][1..] == [];
    } else {
      assert (order + [last])[1..] == order[1..] + [last];
      FirstFaultAppends(backend, trie, batch, order[1..], last);
    }
  }

  lemma {:induction false} BatchReportsFirst(
      backend: Backend, s: State, batch: Batch, order: seq<Address>, block: nat)
    requires Coherent(s)
    requires forall a | a in order :: a in batch
    requires forall i, j | 0 <= i < j < |order| :: order[i] != order[j]
    ensures var fault := FirstFault(backend, s.trie, batch, order);
            BatchApplied(backend, s, batch, order, block).1 == if fault.Some? then Err(fault.value) else Ok(())
    decreases |order|
  {
    if order != [] {
      var init, last := order[..|order| - 1], order[|order| - 1];
      assert order == init + [last] && last !in init;
      BatchReportsFirst(backend, s, batch, init, block);
      FirstFaultAppends(backend, s.trie, batch, init, last);
      BatchIsPointwise(backend, s, batch, init, block, last);
      var before := BatchApplied(backend, s, batch, init, block).0;
      UpdateIsLocal(backend, before, last, batch[last], block, last);
      SlotUpdateExactly(backend, s, last, batch[last], block);
    }
  }

  /** What a batch leaves, address by address, failures included: a batch reports the first fault in
      order of completion, but every update without a fault is applied; an address with a fault, or
      not in the batch, reads as before, and any other reads as its account with exactly the fields
      and tokens its update names changed. */
  lemma BatchExactly(
      backend: Backend, s: State, batch: Batch, order: seq<Address>, block: nat, address: Address, later: nat)
    requires Coherent(s) && Enumerates(order, batch.Keys)
    ensures forall a | a in order :: a in batch
    ensures var (t, r) := BatchApplied(backend, s, batch, order, block);
            var first := FirstFault(backend, s.trie, batch, order);
            var read := AccountGot(t, address, later).1;
            && r == (if first.Some? then Err(first.value) else Ok(()))
            && (if address in batch && Fault(backend, s.trie, address, batch[address]).None?
                then && read.Ok? && read.value.Some?
                     && IsUpdated(backend, address, Held(s.trie, address), batch[address], block, read.value.value)
                else read == AccountGot(s, address, later).1)
  {
    EnumeratedAddresses(order, batch);
    BatchReportsFirst(backend, s, batch, order, block);
    BatchUpdatesSlots(backend, s, batch, order, block);
    BatchKeepsCoherent(backend, s, batch, order, block);
    var t := BatchApplied(backend, s, batch, order, block).0;
    assert SlotOf(t, address) == SlotAfter(backend, address, SlotOf(s, address), batch, block).0;
    GetIsTransparent(t, address, later);
    GetIsTransparent(s, address, later);
    if address in batch {
      SlotUpdateExactly(backend, s, address, batch[address], block);
    }
  }
}
