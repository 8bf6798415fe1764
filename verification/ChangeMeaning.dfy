/**
 What a batch means, told change by change: for each key the last change that names it decides. The entries that
 the cache takes from a batch are compared with this.
 */
module ChangeMeaning {
  import opened Base
  import opened RecentKeys
  import opened StateChanges

  /** All the account changes of a batch in order. */
  function Flat(batch: Batch): seq<AccountChange> {
    if batch == [] then [] else Flat(batch[..|batch| - 1]) + batch[|batch| - 1]
  }

  predicate SetsAccount(change: AccountChange, key: Bytes) {
    change.address == key && (change.action == UPSERT || change.action == UPSERT_CODE || change.action == REMOVE)
  }

  /** The last change that sets or removes the account. */
  ghost predicate LastAccount(changes: seq<AccountChange>, key: Bytes, i: int) {
    && 0 <= i < |changes| && SetsAccount(changes[i], key)
    && forall later | i < later < |changes| :: !SetsAccount(changes[later], key)
  }

  predicate SlotIs(change: AccountChange, j: nat, key: Bytes)
    requires j < |change.storageChanges|
  {
    StorageKey(change.address, change.incarnation, change.storageChanges[j].location) == key
  }

  predicate SetsSlot(change: AccountChange, key: Bytes) {
    exists j | 0 <= j < |change.storageChanges| :: SlotIs(change, j, key)
  }

  ghost predicate LastSlotIn(change: AccountChange, key: Bytes, j: int) {
    && 0 <= j < |change.storageChanges| && SlotIs(change, j, key)
    && forall later | j < later < |change.storageChanges| :: !SlotIs(change, later, key)
  }

  /** The last storage change of the slot, in the last change that carries one. */
  ghost predicate LastSlot(changes: seq<AccountChange>, key: Bytes, i: int, j: int) {
    && 0 <= i < |changes| && LastSlotIn(changes[i], key, j)
    && forall later | i < later < |changes| :: !SetsSlot(changes[later], key)
  }

  ghost predicate Untouched(changes: seq<AccountChange>, key: Bytes) {
    forall i | 0 <= i < |changes| :: !SetsAccount(changes[i], key) && !SetsSlot(changes[i], key)
  }

  /** The changes turn the value `before` of a key into `after`: an account into the data of its last change, or
      into nothing if that removes it; a slot into the data of its last storage change; any other key into
      itself. */
  ghost predicate Means(changes: seq<AccountChange>, key: Bytes, before: Bytes, after: Bytes) {
    && (forall i | LastAccount(changes, key, i) :: after == if changes[i].action == REMOVE then [] else changes[i].data)
    && (forall i, j | LastSlot(changes, key, i, j) :: after == changes[i].storageChanges[j].data)
    && (Untouched(changes, key) ==> after == before)
  }

  // ---------------------------------------------------------------- one change

  lemma SlotsOfOneMore(change: AccountChange, n: nat)
    requires n < |change.storageChanges|
    ensures Effect(StorageEntries(change, n + 1))
         == Effect(StorageEntries(change, n))[StorageEntry(change, n).key := change.storageChanges[n].data]
  {
    EffectOfConcatenation(StorageEntries(change, n), [StorageEntry(change, n)]);
    EffectOfSingle(StorageEntry(change, n));
  }

  lemma {:induction false} NoSlotOfChange(change: AccountChange, n: nat, key: Bytes)
    requires n <= |change.storageChanges| && forall j | 0 <= j < n :: !SlotIs(change, j, key)
    ensures key !in Effect(StorageEntries(change, n))
  {
    if n > 0 {
      NoSlotOfChange(change, n - 1, key);
      SlotsOfOneMore(change, n - 1);
      assert !SlotIs(change, n - 1, key);
    }
  }

  lemma {:induction false} SlotOfChange(change: AccountChange, n: nat, key: Bytes, j: int)
    requires 0 <= j < n <= |change.storageChanges| && SlotIs(change, j, key)
    requires forall later | j < later < n :: !SlotIs(change, later, key)
    ensures key in Effect(StorageEntries(change, n))
    ensures Effect(StorageEntries(change, n))[key] == change.storageChanges[j].data
  {
    SlotsOfOneMore(change, n - 1);
    if j < n - 1 {
      SlotOfChange(change, n - 1, key, j);
      assert !SlotIs(change, n - 1, key);
    }
  }

  /** The value of `key` after a map of new values. */
  function ValueAfter(effect: map<Bytes, Bytes>, key: Bytes, before: Bytes): Bytes {
    if key in effect then effect[key] else before
  }

  lemma AccountOfChange(change: AccountChange, key: Bytes)
    ensures
      var effect := Effect(AccountEntries(change));
      && (key in effect <==> SetsAccount(change, key))
      && (key in effect ==> effect[key] == if change.action == REMOVE then [] else change.data)
  {
    if AccountEntries(change) != [] {
      EffectOfSingle(AccountEntries(change)[0]);
    }
  }

  lemma AccountsAreNoSlots(change: AccountChange, key: Bytes)
    requires SetsAccount(change, key)
    ensures forall other: AccountChange :: !SetsSlot(other, key)
  {
  }

  lemma {:induction false} LastSlotExists(change: AccountChange, n: nat, key: Bytes) returns (j: int)
    requires n <= |change.storageChanges| && exists j | 0 <= j < n :: SlotIs(change, j, key)
    ensures 0 <= j < n && SlotIs(change, j, key) && forall later | j < later < n :: !SlotIs(change, later, key)
  {
    if SlotIs(change, n - 1, key) {
      j := n - 1;
    } else {
      j := LastSlotExists(change, n - 1, key);
    }
  }

  // ---------------------------------------------------------------- many changes

  /** A change that does not touch the key leaves everything to the changes before it. */
  lemma MeansOfRest(changes: seq<AccountChange>, key: Bytes, before: Bytes, after: Bytes)
    requires changes != []
    requires !SetsAccount(changes[|changes| - 1], key) && !SetsSlot(changes[|changes| - 1], key)
    ensures Means(changes, key, before, after) <==> Means(changes[..|changes| - 1], key, before, after)
  {
    var n := |changes| - 1;
    var rest := changes[..n];
    forall i
      ensures LastAccount(changes, key, i) <==> LastAccount(rest, key, i)
    {
      if 0 <= i < n {
        assert rest[i] == changes[i];
      }
    }
    forall i, j
      ensures LastSlot(changes, key, i, j) <==> LastSlot(rest, key, i, j)
    {
    }
    assert Untouched(changes, key) <==> Untouched(rest, key);
  }

  lemma MeansByAccount(changes: seq<AccountChange>, key: Bytes, before: Bytes, after: Bytes)
    requires changes != [] && SetsAccount(changes[|changes| - 1], key)
    ensures
      var last := changes[|changes| - 1];
      Means(changes, key, before, after) <==> after == if last.action == REMOVE then [] else last.data
  {
    var n := |changes| - 1;
    AccountsAreNoSlots(changes[n], key);
    assert LastAccount(changes, key, n);
  }

  lemma MeansBySlot(changes: seq<AccountChange>, key: Bytes, before: Bytes, after: Bytes, j: int)
    requires changes != [] && LastSlotIn(changes[|changes| - 1], key, j)
    ensures Means(changes, key, before, after) <==> after == changes[|changes| - 1].storageChanges[j].data
  {
    var n := |changes| - 1;
    assert LastSlot(changes, key, n, j) && SetsSlot(changes[n], key);
    forall i | LastAccount(changes, key, i)
      ensures false
    {
      AccountsAreNoSlots(changes[i], key);
    }
  }

  /** What a change says of the key, as an update. */
  lemma ChangeDecides(c: AccountChange, key: Bytes)
    ensures
      var effect := Effect(ChangeEntries(c, Whole));
      && (SetsAccount(c, key) ==> key in effect && effect[key] == if c.action == REMOVE then [] else c.data)
      && (forall j | LastSlotIn(c, key, j) :: key in effect && effect[key] == c.storageChanges[j].data)
      && (!SetsAccount(c, key) && !SetsSlot(c, key) ==> key !in effect)
  {
    var n := |c.storageChanges|;
    EffectOfConcatenation(AccountEntries(c), StorageEntries(c, n));
    AccountOfChange(c, key);
    if SetsAccount(c, key) {
      AccountsAreNoSlots(c, key);
    }
    if !SetsSlot(c, key) {
      NoSlotOfChange(c, n, key);
    }
    forall j | LastSlotIn(c, key, j)
      ensures key in Effect(StorageEntries(c, n)) && Effect(StorageEntries(c, n))[key] == c.storageChanges[j].data
    {
      SlotOfChange(c, n, key, j);
    }
  }

  lemma LastChangeFirst(rest: seq<AccountChange>, c: AccountChange, key: Bytes, before: Bytes)
    ensures
      var effect := Effect(ChangeEntries(c, Whole));
      ValueAfter(Effect(BlockEntries(rest + [c], Whole)), key, before)
        == if key in effect then effect[key] else ValueAfter(Effect(BlockEntries(rest, Whole)), key, before)
  {
    BlockEntriesOfOneMore(rest, c, Whole);
    EffectOfConcatenation(BlockEntries(rest, Whole), ChangeEntries(c, Whole));
  }

  /** The entries taken from changes when all they say is read are what the changes mean. */
  lemma {:induction false} MeansIff(changes: seq<AccountChange>, key: Bytes, before: Bytes, after: Bytes)
    ensures Means(changes, key, before, after) <==>
            after == ValueAfter(Effect(BlockEntries(changes, Whole)), key, before)
  {
    if changes != [] {
      var rest, c := changes[..|changes| - 1], changes[|changes| - 1];
      assert changes == rest + [c];
      LastChangeFirst(rest, c, key, before);
      ChangeDecides(c, key);
      if SetsAccount(c, key) {
        MeansByAccount(changes, key, before, after);
      } else if SetsSlot(c, key) {
        var j := LastSlotExists(c, |c.storageChanges|, key);
        assert LastSlotIn(c, key, j);
        MeansBySlot(changes, key, before, after, j);
      } else {
        MeansIff(rest, key, before, after);
        MeansOfRest(changes, key, before, after);
      }
    }
  }

  // ---------------------------------------------------------------- batches

  lemma {:induction false} EntriesOfConcatenation(a: seq<AccountChange>, b: seq<AccountChange>, reading: Reading)
    ensures BlockEntries(a + b, reading) == BlockEntries(a, reading) + BlockEntries(b, reading)
    decreases |b|
  {
    if b == [] {
      assert a + b == a;
    } else {
      var rest, c := b[..|b| - 1], b[|b| - 1];
      calc {
        BlockEntries(a + b, reading);
        { assert a + b == (a + rest) + [c]; BlockEntriesOfOneMore(a + rest, c, reading); }
        BlockEntries(a + rest, reading) + ChangeEntries(c, reading);
        { EntriesOfConcatenation(a, rest, reading); }
        (BlockEntries(a, reading) + BlockEntries(rest, reading)) + ChangeEntries(c, reading);
        { Associative(BlockEntries(a, reading), BlockEntries(rest, reading), ChangeEntries(c, reading)); }
        BlockEntries(a, reading) + (BlockEntries(rest, reading) + ChangeEntries(c, reading));
        { assert b == rest + [c]; BlockEntriesOfOneMore(rest, c, reading); }
        BlockEntries(a, reading) + BlockEntries(b, reading);
      }
    }
  }

  lemma {:induction false} EntriesOfFlat(batch: Batch, reading: Reading)
    ensures BatchEntries(batch, reading) == BlockEntries(Flat(batch), reading)
  {
    if batch != [] {
      var n := |batch| - 1;
      EntriesOfFlat(batch[..n], reading);
      EntriesOfConcatenation(Flat(batch[..n]), batch[n], reading);
    }
  }

  lemma BatchMeansIff(batch: Batch, key: Bytes, before: Bytes, after: Bytes)
    ensures Means(Flat(batch), key, before, after) <==> after == ValueAfter(BatchEffect(batch, Whole), key, before)
  {
    EntriesOfFlat(batch, Whole);
    MeansIff(Flat(batch), key, before, after);
  }

  // ---------------------------------------------------------------- accounts, however a batch is read

  /** What a cache may hold for an account after a batch: the data of the last change that names it, nothing if that
      removes it, and what was inherited if there is none. */
  ghost predicate AccountFound(changes: seq<AccountChange>, key: Bytes, inherited: map<Bytes, Bytes>, value: Bytes) {
    && (forall i | LastAccount(changes, key, i) :: value == if changes[i].action == REMOVE then [] else changes[i].data)
    && ((forall i | 0 <= i < |changes| :: !SetsAccount(changes[i], key)) ==>
          key in inherited && value == inherited[key])
  }

  lemma AccountsAreFound(batch: Batch, reading: Reading, key: Bytes, inherited: map<Bytes, Bytes>)
    requires IsAccount(key) && key in inherited + BatchEffect(batch, reading)
    ensures AccountFound(Flat(batch), key, inherited, (inherited + BatchEffect(batch, reading))[key])
  {
    var changes, whole := Flat(batch), BatchEffect(batch, Whole);
    BatchAccountsAgree(batch, reading);
    var value := (inherited + BatchEffect(batch, reading))[key];
    var before := if key in inherited then inherited[key] else [];
    BatchMeansIff(batch, key, before, value);
    if forall i | 0 <= i < |changes| :: !SetsAccount(changes[i], key) {
      NoAccountNoEffect(changes, key);
      EntriesOfFlat(batch, Whole);
    }
  }

  lemma {:induction false} NoAccountNoEffect(changes: seq<AccountChange>, key: Bytes)
    requires IsAccount(key) && forall i | 0 <= i < |changes| :: !SetsAccount(changes[i], key)
    ensures key !in Effect(BlockEntries(changes, Whole))
  {
    if changes != [] {
      var rest, c := changes[..|changes| - 1], changes[|changes| - 1];
      assert changes == rest + [c];
      NoAccountNoEffect(rest, key);
      BlockEntriesOfOneMore(rest, c, Whole);
      EffectOfConcatenation(BlockEntries(rest, Whole), ChangeEntries(c, Whole));
      ChangeDecides(c, key);
    }
  }

  /** Keys that no change touches are not set, however the batch is read. */
  lemma UntouchedIsNotSet(batch: Batch, reading: Reading, key: Bytes)
    requires Untouched(Flat(batch), key)
    ensures key !in BatchEffect(batch, reading)
  {
    var whole := BatchEffect(batch, Whole);
    BatchAccountsAgree(batch, reading);
    BatchMeansIff(batch, key, [], ValueAfter(whole, key, []));
    BatchMeansIff(batch, key, [0], ValueAfter(whole, key, [0]));
  }

  /** The last change that names an account decides, however the batch is read. */
  lemma LastAccountIsSet(batch: Batch, reading: Reading, key: Bytes, i: int)
    requires LastAccount(Flat(batch), key, i)
    ensures key in BatchEffect(batch, reading)
    ensures BatchEffect(batch, reading)[key] == if Flat(batch)[i].action == REMOVE then [] else Flat(batch)[i].data
  {
    var whole, data := BatchEffect(batch, Whole), if Flat(batch)[i].action == REMOVE then [] else Flat(batch)[i].data;
    BatchAccountsAgree(batch, reading);
    BatchMeansIff(batch, key, data + [0], ValueAfter(whole, key, data + [0]));
    assert |data + [0]| != |data|;
    assert IsAccount(key);
  }
}
