/** The state-change batches the KV service streams, what they mean, and which of it the cache reads. */
module StateChanges {
  import opened Base
  import opened PayloadId
  import opened RecentKeys

  const ADDRESS_LENGTH := 20
  const HASH_LENGTH := 32

  type Address = b: Bytes | |b| == ADDRESS_LENGTH witness seq(ADDRESS_LENGTH, _ => 0)
  type Location = b: Bytes | |b| == HASH_LENGTH witness seq(HASH_LENGTH, _ => 0)

  datatype StorageChange = StorageChange(location: Location, data: Bytes)

  datatype Action = UPSERT | UPSERT_CODE | REMOVE | STORAGE | CODE | OTHER

  /** Whatever the action, a change may carry storage changes. */
  datatype AccountChange = AccountChange(
    action: Action, address: Address, incarnation: uint64, data: Bytes, storageChanges: seq<StorageChange>)

  /** One batch: the account changes of each of its blocks. */
  type Batch = seq<seq<AccountChange>>

  type KeyValue = Entry<Bytes, Bytes>

  /** Account keys are addresses; every other key is that of a storage slot. */
  predicate IsAccount(key: Bytes) {
    |key| == ADDRESS_LENGTH
  }

  const INCARNATION_LENGTH := 8

  /** composite_storage_key: address, incarnation in big-endian order, location. */
  function StorageKey(address: Address, incarnation: uint64, location: Location): (key: Bytes)
    ensures |key| == ADDRESS_LENGTH + INCARNATION_LENGTH + HASH_LENGTH == 60 && !IsAccount(key)
    ensures key[..20] == address && key[28..] == location
    ensures BigEndian(key[20..28]) == incarnation
  {
    assert Power256(INCARNATION_LENGTH) == TWO_TO_64;
    StoreBigKeepsValue(incarnation, INCARNATION_LENGTH);
    var key := address + StoreBig(incarnation, INCARNATION_LENGTH) + location;
    assert key[20..28] == StoreBig(incarnation, INCARNATION_LENGTH);
    key
  }

  /** Different slots have different keys. */
  lemma StorageKeyIsInjective(a: Address, n: uint64, l: Location, a': Address, n': uint64, l': Location)
    ensures StorageKey(a, n, l) == StorageKey(a', n', l') <==> a == a' && n == n' && l == l'
  {
    if StorageKey(a, n, l) == StorageKey(a', n', l') {
      var key := StorageKey(a, n, l);
      assert a == key[..20] == a' && l == key[28..] == l';
      assert n == BigEndian(key[20..28]) == n';
    }
  }

  /** The account a change sets; a removed account is set to the empty value. */
  function AccountEntries(change: AccountChange): seq<KeyValue> {
    match change.action
    case UPSERT => [Entry(change.address, change.data)]
    case UPSERT_CODE => [Entry(change.address, change.data)]
    case REMOVE => [Entry(change.address, [])]
    case _ => []
  }

  function StorageEntry(change: AccountChange, i: nat): KeyValue
    requires i < |change.storageChanges|
  {
    var storageChange := change.storageChanges[i];
    Entry(StorageKey(change.address, change.incarnation, storageChange.location), storageChange.data)
  }

  /** The first `n` storage slots a change sets. */
  function StorageEntries(change: AccountChange, n: nat): seq<KeyValue>
    requires n <= |change.storageChanges|
  {
    if n == 0 then [] else StorageEntries(change, n - 1) + [StorageEntry(change, n - 1)]
  }

  /** Ways to read a batch: all it says; what on_new_block takes from it when configured with storage, and
      without. */
  datatype Reading = Whole | WithStorage | WithoutStorage

  function ReadingOf(withStorage: bool): Reading {
    if withStorage then WithStorage else WithoutStorage
  }

  /** The keys one account change sets, with their new values. The whole meaning is the account and all
      storage changes it carries; on_new_block looks at storage changes for the STORAGE action only. */
  function ChangeEntries(change: AccountChange, reading: Reading): seq<KeyValue> {
    match reading
    case Whole => AccountEntries(change) + StorageEntries(change, |change.storageChanges|)
    case WithStorage =>
      if change.action.STORAGE? then StorageEntries(change, |change.storageChanges|) else AccountEntries(change)
    case WithoutStorage => AccountEntries(change)
  }

  function BlockEntries(changes: seq<AccountChange>, reading: Reading): seq<KeyValue> {
    if changes == [] then []
    else BlockEntries(changes[..|changes| - 1], reading) + ChangeEntries(changes[|changes| - 1], reading)
  }

  function BatchEntries(batch: Batch, reading: Reading): seq<KeyValue> {
    if batch == [] then []
    else BatchEntries(batch[..|batch| - 1], reading) + BlockEntries(batch[|batch| - 1], reading)
  }

  /** What a batch does when read in the given way. */
  function BatchEffect(batch: Batch, reading: Reading): map<Bytes, Bytes> {
    Effect(BatchEntries(batch, reading))
  }

  lemma BlockEntriesOfOneMore(changes: seq<AccountChange>, change: AccountChange, reading: Reading)
    ensures BlockEntries(changes + [change], reading) == BlockEntries(changes, reading) + ChangeEntries(change, reading)
  {
    assert (changes + [change])[..|changes|] == changes;
  }

  // ---------------------------------------------------------------- what on_new_block leaves out

  predicate ExplicitChange(change: AccountChange) {
    change.storageChanges == [] || change.action.STORAGE?
  }

  predicate ExplicitBlock(changes: seq<AccountChange>) {
    forall j | 0 <= j < |changes| :: ExplicitChange(changes[j])
  }

  /** Every change that carries storage changes says so by its action. */
  predicate Explicit(batch: Batch) {
    forall i | 0 <= i < |batch| :: ExplicitBlock(batch[i])
  }

  lemma {:induction false} StorageEntriesLength(change: AccountChange, n: nat)
    requires n <= |change.storageChanges|
    ensures |StorageEntries(change, n)| == n
  {
    if n > 0 {
      StorageEntriesLength(change, n - 1);
    }
  }

  /** `part` is all of `whole` exactly if `explicit`; otherwise it is shorter. */
  ghost predicate AllIff(explicit: bool, part: seq<KeyValue>, whole: seq<KeyValue>) {
    if explicit then part == whole else |part| < |whole|
  }

  lemma AllIffOfConcatenation(e: bool, p: seq<KeyValue>, w: seq<KeyValue>,
                              e': bool, p': seq<KeyValue>, w': seq<KeyValue>)
    requires AllIff(e, p, w) && AllIff(e', p', w')
    ensures AllIff(e && e', p + p', w + w')
  {
  }

  lemma ChangeAllIff(change: AccountChange)
    ensures AllIff(ExplicitChange(change), ChangeEntries(change, WithStorage), ChangeEntries(change, Whole))
  {
    StorageEntriesLength(change, |change.storageChanges|);
  }

  lemma ExplicitOfLastChange(changes: seq<AccountChange>)
    requires changes != []
    ensures ExplicitBlock(changes) <==>
            ExplicitBlock(changes[..|changes| - 1]) && ExplicitChange(changes[|changes| - 1])
  {
    forall j | 0 <= j < |changes| - 1
      ensures changes[..|changes| - 1][j] == changes[j]
    {
    }
  }

  lemma {:induction false} BlockAllIff(changes: seq<AccountChange>)
    ensures AllIff(ExplicitBlock(changes), BlockEntries(changes, WithStorage), BlockEntries(changes, Whole))
  {
    if changes != [] {
      var n := |changes| - 1;
      BlockAllIff(changes[..n]);
      ChangeAllIff(changes[n]);
      AllIffOfConcatenation(
        ExplicitBlock(changes[..n]), BlockEntries(changes[..n], WithStorage), BlockEntries(changes[..n], Whole),
        ExplicitChange(changes[n]), ChangeEntries(changes[n], WithStorage), ChangeEntries(changes[n], Whole));
      ExplicitOfLastChange(changes);
    }
  }

  lemma ExplicitOfLast(batch: Batch)
    requires batch != []
    ensures Explicit(batch) <==> Explicit(batch[..|batch| - 1]) && ExplicitBlock(batch[|batch| - 1])
  {
    forall i | 0 <= i < |batch| - 1
      ensures batch[..|batch| - 1][i] == batch[i]
    {
    }
  }

  lemma {:induction false} BatchAllIff(batch: Batch)
    ensures AllIff(Explicit(batch), BatchEntries(batch, WithStorage), BatchEntries(batch, Whole))
  {
    if batch != [] {
      var n := |batch| - 1;
      BatchAllIff(batch[..n]);
      BlockAllIff(batch[n]);
      AllIffOfConcatenation(
        Explicit(batch[..n]), BatchEntries(batch[..n], WithStorage), BatchEntries(batch[..n], Whole),
        ExplicitBlock(batch[n]), BlockEntries(batch[n], WithStorage), BlockEntries(batch[n], Whole));
      ExplicitOfLast(batch);
    }
  }

  /** Configured with storage, on_new_block takes all a batch means exactly when the batch is explicit. */
  lemma ExplicitIffWhole(batch: Batch)
    ensures BatchEntries(batch, WithStorage) == BatchEntries(batch, Whole) <==> Explicit(batch)
  {
    BatchAllIff(batch);
  }

  /** `part` does to accounts exactly what `whole` does, and sets no storage slot that `whole` does not. */
  ghost predicate AccountsAgree(part: map<Bytes, Bytes>, whole: map<Bytes, Bytes>) {
    forall k :: (k in part ==> k in whole) && (IsAccount(k) && k in whole ==> k in part && part[k] == whole[k])
  }

  lemma {:induction false} StorageKeysAreNotAccounts(change: AccountChange, n: nat, k: Bytes)
    requires n <= |change.storageChanges| && k in Effect(StorageEntries(change, n))
    ensures !IsAccount(k)
  {
    if n > 0 {
      var e := StorageEntry(change, n - 1);
      EffectOfConcatenation(StorageEntries(change, n - 1), [e]);
      EffectOfSingle(e);
      if k != e.key {
        StorageKeysAreNotAccounts(change, n - 1, k);
      }
    }
  }

  lemma ChangeAccountsAgree(change: AccountChange, reading: Reading)
    ensures AccountsAgree(Effect(ChangeEntries(change, reading)), Effect(ChangeEntries(change, Whole)))
  {
    var account, slots := AccountEntries(change), StorageEntries(change, |change.storageChanges|);
    EffectOfConcatenation(account, slots);
    forall k | k in Effect(slots)
      ensures !IsAccount(k)
    {
      StorageKeysAreNotAccounts(change, |change.storageChanges|, k);
    }
  }

  lemma {:induction false} BlockAccountsAgree(changes: seq<AccountChange>, reading: Reading)
    ensures AccountsAgree(Effect(BlockEntries(changes, reading)), Effect(BlockEntries(changes, Whole)))
  {
    if changes != [] {
      var n := |changes| - 1;
      BlockAccountsAgree(changes[..n], reading);
      ChangeAccountsAgree(changes[n], reading);
      EffectOfConcatenation(BlockEntries(changes[..n], reading), ChangeEntries(changes[n], reading));
      EffectOfConcatenation(BlockEntries(changes[..n], Whole), ChangeEntries(changes[n], Whole));
    }
  }

  /** However it is configured, on_new_block takes from a batch all it means for accounts, and nothing that
      it does not mean for storage. */
  lemma {:induction false} BatchAccountsAgree(batch: Batch, reading: Reading)
    ensures AccountsAgree(BatchEffect(batch, reading), BatchEffect(batch, Whole))
  {
    if batch != [] {
      var n := |batch| - 1;
      BatchAccountsAgree(batch[..n], reading);
      BlockAccountsAgree(batch[n], reading);
      EffectOfConcatenation(BatchEntries(batch[..n], reading), BlockEntries(batch[n], reading));
      EffectOfConcatenation(BatchEntries(batch[..n], Whole), BlockEntries(batch[n], Whole));
    }
  }

  /** Without storage, no slot is set at all. */
  lemma {:induction false} NoSlotsWithoutStorage(batch: Batch)
    ensures forall k | k in BatchEffect(batch, WithoutStorage) :: IsAccount(k)
  {
    if batch != [] {
      var n := |batch| - 1;
      NoSlotsWithoutStorage(batch[..n]);
      NoSlotsInBlock(batch[n]);
      EffectOfConcatenation(BatchEntries(batch[..n], WithoutStorage), BlockEntries(batch[n], WithoutStorage));
    }
  }

  lemma {:induction false} NoSlotsInBlock(changes: seq<AccountChange>)
    ensures forall k | k in Effect(BlockEntries(changes, WithoutStorage)) :: IsAccount(k)
  {
    if changes != [] {
      var n := |changes| - 1;
      NoSlotsInBlock(changes[..n]);
      EffectOfConcatenation(BlockEntries(changes[..n], WithoutStorage), AccountEntries(changes[n]));
    }
  }
}
