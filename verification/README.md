# Silkrpc: a verified model of its protocols and state machines

Silkrpc is the JSON RPC daemon that serves Ethereum data kept by an Erigon node. This project models, in
Dafny, the parts of it that are state machines, and proves properties of all their runs:

* the seek conversation held on the KV service's `Tx` stream, by a blocking client, a completion-queue
  client and a callback client, and the whole conversation as a transition system with two channels and a
  server (`KvMessages`, `KvScript`, `KvBlocking`, `KvReactor`, `KvQueue`, `KvSystem`);
* the ownership of sub-messages in the generated Engine messages, on the heap and on arenas
  (`MessageMemory`, `EngineMessages`, `EngineAccessors`);
* the Engine API handlers, the textual form of payload ids and the database transaction of the
  exchange-configuration handler (`PayloadId`, `EngineApi`, `TransitionConfig`);
* the life of the daemon and the distribution of servers over contexts (`Daemon`);
* the coherent state cache fed by state-change batches: what is read from batches and what they mean
  (`StateChanges`, `ChangeMeaning`), replacement of the least recently used keys (`RecentKeys`, `KeyOrder`), which
  views have roots (`CacheViews`), the cache itself
  (`StateCache`), its runs (`CacheRuns`, `CachedReads`, `CacheLimits`, `CacheTightness`), and runs that end
  badly (`CacheFailures`, `CacheListFailures`).

`Base` holds integer widths and byte strings.

`dafny verify dfyconfig.toml` checks everything. Imperative code is modelled by classes and methods proved
against specification functions and predicates; lemmas and driver methods state what holds over whole runs.

## How the environment is modelled

A gRPC stream, the backend, the database and the action of starting or stopping something are functions
from the number of the operation to its outcome (`env(i)`, `backend(i)`, `throws(k)`). The modelled code is
deterministic, so quantifying over all such functions covers environments that react to what they are sent.
Schedules are explicit: the completions of the callback client, the tags `Next` picks, the steps of
`KvSystem` and the interleaving of blocks and reads in `CacheRuns` are all arbitrary. So are the keys the state
cache reads through pointers to erased entries (`stray(i)`).

## Results that qualify what the code seems to promise

* **Exchange configuration leaves transactions open.** Each of the three early returns skips `close`. Over
  any sequence of requests, transactions begun minus closed is the number of requests that took one of them, if
  begin and close do not fail (`TransitionConfig.ServeExchanges`). Any configuration that names a terminal block
  below 2^63 is such a request (`NamedTerminalBlock`).
* **`kv_seek_async` looks at no `ok` flag and never awaits its Finish.** Its exit code agrees with that of
  `kv_seek` exactly when no operation of the conversation failed (`KvQueue.AsyncAgreesWithBlocking`).
* **The state cache can write through dangling pointers**, in two places. `evict_roots` may destroy the root that
  `on_new_block` goes on writing to: the oldest view to delete is computed by an unsigned subtraction from the
  *previous* latest view, which wraps around. And `get` stores what it read into the root it found before it
  released the lock, which may be destroyed by then. Both are told beforehand from the view ids alone
  (`CacheViews.Dangles`, `StateCache.CoherentStateCache.OnNewBlock` and `Fill`, `CacheRuns.Drive`); instances are
  `CacheFailures.FirstBatchAfterReads` and `DanglingStore`. The model claims nothing after such a write: it gives
  the whole state arbitrary values.
* **It also reads through one, whenever a key of the latest view is replaced.** `add` keeps a pointer to the entry,
  erases it, inserts the key again, and then removes from the eviction list the key it reads through that pointer;
  erasing and inserting invalidate pointers into the ordered set. The model lets the environment choose the key
  read. Coherence holds for every choice (`CacheRuns.RunCoherent`); the list stays in step exactly when it is the
  replaced key (`RecentKeys.ReplacedTracksIff`), and the results on recency, on the key limit and on the assertion
  are for runs where it is. Otherwise one orderly batch can make the assertion fail
  (`CacheListFailures.MisreadBatch`).
* **A cached read can answer with the empty value.** On a coherent cache it answers as the database does exactly
  when the view's root was not ready, or the view still has a root at the lookup, or the database has no value
  (`CachedReads.GetOne`, instance `CacheFailures.EvictedRead`).
* **Storage changes are left out** of a cache configured without storage, and in any cache when a change carries
  them with an action other than STORAGE (`StateChanges.ExplicitIffWhole`). A block then keeps the cache coherent
  exactly when, for the slots that stay cached, the inherited cache and what was read from the batch say what the
  batch means (`CacheRuns.BlockCoherentIff`, `SkippedStorageCoherentIff`, `SlotStaysIff`), which also decides each
  read of a slot (`CachedReads.SlotReadIff`); `CacheFailures.StaleSlot` finds an old value. Accounts are right in
  every case (`CacheRuns.RunCoherent`).
* **The assertion on erased keys fails, and the key limit is exceeded,** for batches that are repeated or come
  late. `CacheLimits.RunInOrder` says under which conditions on view ids neither happens, and `CacheTightness`
  that these cannot be done without. `RecentKeys.PutFailsIff` says when exactly the assertion fails,
  `CacheLimits.OverfullIff` when exactly a batch leaves the latest view with too many keys; instances are
  `CacheListFailures.RepeatedBatch`, `OverfullView` and `ForgottenKeys`.
* **Raw exchange, the setters and the unsafe release are sound only under their stated conditions**, which are
  exact (`EngineMessages.InternalSwapKeepsInvIff`, `SetAllocatedKeepsInvIff`, `UnsafeSetKeepsInvIff`,
  `MessageMemory.UnsafeReleaseTransfersIff`).

## Model

| member | source | states |
|---|---|---|
| `KvScript.RunNFollowsScript` | cmd/kv_seek.cpp:38-111 | every cut of a run is a prefix of the fixed seven-operation script in which only the last operation may have failed, and records the environment's answers |
| `KvScript.RunNIsPrefix` | cmd/kv_seek.cpp:38-111 | a shorter cut is a prefix of a longer one, and a complete run never grows |
| `KvScript.RunIsTheOnlyScriptedLog` | cmd/kv_seek.cpp:38-111 | a log is the run if and only if it follows the script, records the environment's answers and is complete |
| `KvScript.RunSucceedsIff` | cmd/kv_seek.cpp:40-110 | all seven operations are performed successfully if and only if the environment answers ok to each |
| `KvScript.WritesCarryTheOpenedCursor` | cmd/kv_seek.cpp:67-97 | writes are OPEN, SEEK, CLOSE at their places; SEEK and CLOSE carry the cursor id of this stream's own OPEN reply |
| `KvScript.SeekBothIsSeekWithSubkey` | cmd/kv_seek_both.cpp:39-119 | on every stream the SEEK_BOTH conversation is the SEEK one with the operation replaced and the subkey added |
| `KvBlocking.KvSeek` | cmd/kv_seek.cpp:29-118 | the log is a scripted prefix up to the first failure, then one Finish; WritesDone and exit code 0 just when nothing failed |
| `KvBlocking.KvSeekBoth` | cmd/kv_seek_both.cpp:30-120 | the same for the conversation with a subkey |
| `KvBlocking.OpenCursor` | cmd/kv_seek.cpp:38-68 | the first three operations follow the script and yield the opened cursor id, or the last of them failed |
| `KvBlocking.SeekAndClose` | cmd/kv_seek.cpp:75-117 | from an opened cursor on, the rest of the conversation and the way the stream is ended |
| `KvBlocking.Abandon` | cmd/kv_seek.cpp:41-45 | after a failed operation: exactly one Finish and exit code -1 |
| `KvBlocking.SeekDoneMeans` | cmd/kv_seek.cpp:38-117 | the promise of the blocking clients, spelled out: their log is the run, Finish comes once and last, exit code 0 if and only if all seven operations succeed, WritesDone if and only if exit code 0 |
| `KvReactor.Reactor.constructor` | cmd/kv_seek_async_callback.cpp:79-82 | establishes the client's invariant with the first read in flight |
| `KvReactor.Reactor.ReadStart` | cmd/kv_seek_async_callback.cpp:40-43 | stores the continuation, starts the read and counts a continuation replaced before it was called |
| `KvReactor.Reactor.WriteStart` | cmd/kv_seek_async_callback.cpp:45-48 | the same for writes |
| `KvReactor.Reactor.OnReadDone` | cmd/kv_seek_async_callback.cpp:50-52 | a completed read keeps the invariant: the one operation in flight is the next of the script, and its continuation is the one in the slot |
| `KvReactor.Reactor.OnWriteDone` | cmd/kv_seek_async_callback.cpp:54-56 | the same for a completed write |
| `KvReactor.CallbackClient` | cmd/kv_seek_async_callback.cpp:66-150 | after any number of completions in any schedule: the operations are those of the run cut there, only the next scripted operation is in flight, no slot was ever overwritten, and `context.stop()` was called if and only if seven completions arrived ok |
| `KvReactor.StoppedIff` | cmd/kv_seek_async_callback.cpp:83-138 | a cut run has seven successes if and only if it is long enough and all seven outcomes are ok |
| `KvReactor.CallbackRefinesBlocking` | cmd/kv_seek_async_callback.cpp:82-145 | completion by completion the callback client's operations are a prefix of the blocking run and what is in flight is the blocking client's next operation; after a failure or the end nothing is in flight |
| `KvQueue.AsyncStream.Next` | cmd/kv_seek_async.cpp:54-57 | the queue returns some outstanding tag, or no event |
| `KvQueue.IssueAndWait` | cmd/kv_seek_async.cpp:60-64 | a `Next` waits with exactly one outstanding tag, the one then compared, so the client gives up only for want of an event |
| `KvQueue.KvSeekAsync` | cmd/kv_seek_async.cpp:44-142 | operations are issued in script order under the right tags, every `Next` waits for exactly one tag, the exits before Finish are taken exactly when there is no event, and Finish stays outstanding |
| `KvQueue.AsyncAgreesWithBlocking` | cmd/kv_seek_async.cpp:44-141 | with events available and an OK status OPEN, SEEK and CLOSE are written, as spelled out, and the tags awaited are the listed ones, whatever the `ok` flags; the exit code equals that of the blocking client if and only if no operation fails |
| `KvSystem.ConservedStep` | silkworm/interfaces/remote/kv.grpc.pb.h:47-51 | every step keeps the message counts: sent equals one plus consumed, and each message is delivered or in its channel |
| `KvSystem.ServeContents` | silkworm/interfaces/remote/kv.grpc.pb.h:47-51 | serving a message keeps what is known of the channels, the open cursors and the seek reply |
| `KvSystem.InvStep` | cmd/kv_seek.cpp:35-117 | every step of client, server or environment keeps the invariant of the whole system |
| `KvSystem.RunInvariant` | cmd/kv_seek.cpp:35-117 | the invariant holds after any run, whose length is bounded by the decrease of a rank |
| `KvSystem.ReachableStates` | cmd/kv_seek.cpp:35-117 | in every reachable state the conversation follows the script, server messages sent are 1 + Cursor messages consumed, at most one message is in the channels, and operations fail only on a broken stream |
| `KvSystem.AlwaysReady` | cmd/kv_seek.cpp:35-117 | in every reachable state before Finish some party can step without the stream breaking |
| `KvSystem.MaximalRuns` | cmd/kv_seek.cpp:35-117 | a run that cannot go on has finished with a run of `kv_seek`; unbroken ones succeed; successful ones leave no open cursor and no undelivered message, and the client got what the store holds for its key |
| `MessageMemory.MutableTransfers` | silkworm/interfaces/remote/ethbackend.pb.h:5101-5112 | `mutable` leaves every object with exactly the holders it had, a new one being held by its message or arena |
| `MessageMemory.DropTransfers` | silkworm/interfaces/remote/ethbackend.pb.h:5057-5062 | `clear` frees what a heap message held and nothing on an arena |
| `MessageMemory.SetAllocatedTransfers` | silkworm/interfaces/remote/ethbackend.pb.h:5113-5131 | `set_allocated` of null, of an object the caller owns, or of one living on any arena transfers ownership properly, whichever of adopting, storing and copying it does |
| `MessageMemory.SetAllocatedTransfersIff` | silkworm/interfaces/remote/ethbackend.pb.h:5113-5131 | and those are the only arguments for which it does |
| `MessageMemory.ReleaseTransfers` | silkworm/interfaces/remote/ethbackend.pb.h:5085-5093 | `release` gives the caller a heap object of its own, on an arena a copy, and no object gains or loses a holder |
| `MessageMemory.UnsafeSetTransfersIff` | silkworm/interfaces/remote/ethbackend.pb.h:5072-5084 | the unsafe setter is a proper transfer if and only if the argument is null or already belongs where the message lives |
| `MessageMemory.UnsafeSetAgreesWithSet` | silkworm/interfaces/remote/ethbackend.pb.h:5072-5131 | on an argument of the message's own arena the safe and the unsafe setter do the same |
| `MessageMemory.UnsafeReleaseTransfersIff` | silkworm/interfaces/remote/ethbackend.pb.h:5094-5100 | the caller may take over the released pointer if and only if the message is on the heap |
| `EngineMessages.TransferKeepsInv` | silkworm/interfaces/remote/ethbackend.pb.h:5057-5131 | a proper transfer at one field keeps the ownership invariant of a program with any number of messages |
| `EngineMessages.NewProgramHasInv` | silkworm/interfaces/remote/ethbackend.pb.h:1690-1690 | any number of empty messages, placed anywhere, satisfy the invariant |
| `EngineMessages.SetAllocatedShows` | silkworm/interfaces/remote/ethbackend.pb.h:5113-5131 | what set_allocated stores shows what its argument showed, also when it is a copy from another arena |
| `EngineMessages.MutableShows` | silkworm/interfaces/remote/ethbackend.pb.h:5101-5112 | a new sub-message shows the default, and one that is there shows what it did |
| `EngineMessages.ReleaseShows` | silkworm/interfaces/remote/ethbackend.pb.h:5085-5093 | what release hands out shows what the field did |
| `EngineMessages.InternalSwapKeepsInvIff` | silkworm/interfaces/remote/ethbackend.pb.h:1741-1745 | a raw exchange keeps the invariant if and only if the arenas are equal or both messages are empty |
| `EngineMessages.SwapCorrect` | silkworm/interfaces/remote/ethbackend.pb.h:1733-1740 | Swap keeps the invariant for every placement and exchanges what the two messages show |
| `EngineMessages.MoveAssignCorrect` | silkworm/interfaces/remote/ethbackend.pb.h:1703-1710 | move assignment keeps the invariant, gives the target what the source showed, and leaves the source with the target's old contents on the same arena and unchanged otherwise |
| `EngineMessages.CallKeepsInv` | silkworm/interfaces/remote/ethbackend.pb.h:5057-5214 | every allowed call keeps the ownership invariant |
| `EngineMessages.OwnershipOverAllCalls` | silkworm/interfaces/remote/ethbackend.pb.h:5057-5214 | over any sequence of calls each object is in exactly one of heap field, caller, arena and freed, is freed at most once, no field points to a freed one, and every field points to an object kept by its message's arena or to a heap object if it has none |
| `EngineMessages.UnsafeSetKeepsInvIff` | silkworm/interfaces/remote/ethbackend.pb.h:5072-5084 | the unsafe setter keeps the invariant of the whole program if and only if its argument already belongs with the message |
| `EngineMessages.SetAllocatedKeepsInvIff` | silkworm/interfaces/remote/ethbackend.pb.h:5113-5131 | set_allocated keeps the invariant of the whole program if and only if the caller may pass that argument |
| `EngineAccessors.EngineMessage.ClearField` | silkworm/interfaces/remote/ethbackend.pb.h:5057-5062 | the in-place `clear` is the specified change of field and memory, other fields unchanged |
| `EngineAccessors.EngineMessage.UnsafeArenaSetAllocated` | silkworm/interfaces/remote/ethbackend.pb.h:5072-5084 | the same for `unsafe_arena_set_allocated` |
| `EngineAccessors.EngineMessage.ReleaseField` | silkworm/interfaces/remote/ethbackend.pb.h:5085-5093 | the same for `release` |
| `EngineAccessors.EngineMessage.UnsafeArenaRelease` | silkworm/interfaces/remote/ethbackend.pb.h:5094-5100 | the pointer is returned as it is, the field emptied and memory untouched |
| `EngineAccessors.EngineMessage.MutableField` | silkworm/interfaces/remote/ethbackend.pb.h:5101-5112 | the same for `mutable` |
| `EngineAccessors.EngineMessage.SetAllocatedField` | silkworm/interfaces/remote/ethbackend.pb.h:5113-5131 | the same for `set_allocated` |
| `EngineAccessors.EngineMessage.Swap` | silkworm/interfaces/remote/ethbackend.pb.h:1733-1740 | the in-place Swap of two messages is the one `SwapCorrect` is about; with itself it changes nothing |
| `EngineAccessors.EngineMessage.MoveAssign` | silkworm/interfaces/remote/ethbackend.pb.h:1703-1710 | the in-place move assignment is the one `MoveAssignCorrect` is about; from itself it changes nothing |
| `EngineAccessors.UseRefinesPlain` | silkworm/interfaces/remote/ethbackend.pb.h:5051-5131 | every accessor does to a message, wherever placed, what it does to plain optional values |
| `EngineAccessors.AllUsesRefinePlain` | silkworm/interfaces/remote/ethbackend.pb.h:5051-5131 | the same for any sequence of accesses |
| `EngineAccessors.PlacementIsInvisible` | silkworm/interfaces/remote/ethbackend.pb.h:5051-5131 | two messages that show the same still do after any sequence of accesses, on the heap or on any arenas, for `has`, getters and released objects |
| `EngineAccessors.UseKeepsOwned` | silkworm/interfaces/remote/ethbackend.pb.h:5051-5131 | those accesses are calls the ownership theorem covers, and every handle stays the caller's own |
| `EngineAccessors.NoUseReachesFreed` | silkworm/interfaces/remote/ethbackend.pb.h:5051-5131 | so over any sequence of accesses every handle stays the caller's own and no field or handle points to a freed object |
| `PayloadId.DigitStringsAreRead` | silkworm/silkrpc/commands/engine_api.cpp:46-46 | hexadecimal digits, with or without prefix, are read as the number they denote below 2^64 and are out of range otherwise |
| `PayloadId.DigitsOfEitherCase` | silkworm/silkrpc/commands/engine_api.cpp:46-46 | digits of either case have the value of their place in the alphabet of digits |
| `PayloadId.SignsAreRead` | silkworm/silkrpc/commands/engine_api.cpp:46-46 | a minus sign negates modulo 2^64 |
| `PayloadId.SpacesAreSkipped` | silkworm/silkrpc/commands/engine_api.cpp:46-46 | white space before a number is ignored |
| `PayloadId.TheRestIsIgnored` | silkworm/silkrpc/commands/engine_api.cpp:46-46 | whatever follows the digits is ignored |
| `PayloadId.SignedNumbersAreRead` | silkworm/silkrpc/json/types.cpp:651-651 | signed numbers are read alike below 2^63 and are out of range from there on |
| `PayloadId.ToHexNoLeadingZeros` | silkworm/silkrpc/json/types.cpp:35-68 | the digits written denote the big-endian number, the first being zero only if it is the only one |
| `PayloadId.StoreBigKeepsValue` | silkworm/silkrpc/json/types.cpp:70-74 | the stored bytes denote the number |
| `PayloadId.ToQuantity` | silkworm/silkrpc/json/types.cpp:80-82 | the quantity of every 64-bit number is canonical and is read back as that number |
| `EngineApi.EngineRpcApi.HandleGetPayloadV1` | silkworm/silkrpc/commands/engine_api.cpp:33-60 | the backend is called once, with the request's meaning, exactly when it has one; what the backend returns is the content of the reply, everything else an error with the right code and text |
| `EngineApi.EngineRpcApi.HandleNewPayloadV1` | silkworm/silkrpc/commands/engine_api.cpp:64-91 | the same |
| `EngineApi.EngineRpcApi.HandleForkChoiceUpdatedV1` | silkworm/silkrpc/commands/engine_api.cpp:96-153 | the same; the text names the first thing wrong, the two zero hashes among them |
| `EngineApi.GetPayloadPlainly` | silkworm/silkrpc/commands/engine_api.cpp:33-60 | request by request: the decoded id reaches the backend, and with which code and text all others are told |
| `EngineApi.NewPayloadPlainly` | silkworm/silkrpc/commands/engine_api.cpp:64-91 | request by request: the decoded payload reaches the backend, and what all others are told |
| `EngineApi.ForkChoicePlainly` | silkworm/silkrpc/commands/engine_api.cpp:108-140 | conversely, every request that decodes to a state with both hashes, and to attributes if given, reaches the backend with these, and the reply is the backend's |
| `EngineApi.ForkChoiceOnlyFrom` | silkworm/silkrpc/commands/engine_api.cpp:108-140 | whatever fork-choice call was made carries the decoded state of its request as it is, and the decoded attributes exactly when the second parameter is there and not null |
| `EngineApi.ForkChoiceErrors` | silkworm/silkrpc/commands/engine_api.cpp:99-151 | what all other fork-choice requests are told, by what is wrong with them |
| `EngineApi.Serve` | silkworm/silkrpc/commands/engine_api.cpp:33-153 | over any requests: one reply each, the backend calls are the meanings of the requests in order, content replies are as many as normal backend returns |
| `EngineApi.ForkChoiceCalls` | silkworm/silkrpc/commands/engine_api.cpp:108-140 | every fork-choice call made carries non-zero safe and finalized hashes, and attributes exactly when its request gave a non-null second parameter |
| `EngineApi.PayloadIdsReachBackend` | silkworm/silkrpc/commands/engine_api.cpp:45-57 | the text of every number below 2^64 reaches the backend as that number; digits denoting more give -38001 and no backend call |
| `TransitionConfig.ExchangeApi.Handle` | silkworm/silkrpc/commands/engine_api.cpp:157-208 | when a transaction is begun and when it is closed, and how each request ends; for a decoded configuration and a database that does not fail, content made of the chain's own difficulty if and only if no block is named and the difficulties are the same, the text in each other case, and closed if and only if content |
| `TransitionConfig.EndsPlainly` | silkworm/silkrpc/commands/engine_api.cpp:157-208 | the other requests, case by case: what escapes as an exception, what is replied with which text, and what is begun and closed |
| `TransitionConfig.ServeExchanges` | silkworm/silkrpc/commands/engine_api.cpp:165-207 | over any requests, transactions begun minus closed are those left open; if begin and close do not fail these are the requests that left early, hence balanced if and only if none did |
| `TransitionConfig.OnlyEarlyExitsLeaveOpen` | silkworm/silkrpc/commands/engine_api.cpp:168-207 | if begin and close do not fail, success and exception paths always balance |
| `TransitionConfig.NoEarlyExitsIff` | silkworm/silkrpc/commands/engine_api.cpp:175-191 | the count is zero if and only if no request leaves early |
| `TransitionConfig.ConfigurationIsRead` | silkworm/silkrpc/json/types.cpp:647-653 | a configuration object with hexadecimal digits for a block number is read as it is below 2^63, and throws from there on |
| `TransitionConfig.NamedTerminalBlock` | silkworm/silkrpc/commands/engine_api.cpp:165-180 | a request that names a terminal block other than zero below 2^63 gets its error reply and leaves its transaction open; one from 2^63 on throws before a transaction is begun |
| `Daemon.ValidateSettings` | silkworm/silkrpc/daemon.cpp:149-192 | settings are valid if and only if the data directory exists when given, every non-empty address has a port, a data source is named and the API specification is not empty |
| `Daemon.SuccessOrThrow` | silkworm/silkrpc/daemon.cpp:36-42 | throws if and only if some check is incompatible, and then the result of the first such |
| `Daemon.ContextPool.NextContext` | silkworm/silkrpc/concurrency/context_pool.cpp:209-214 | round robin |
| `Daemon.CreateServices` | silkworm/silkrpc/daemon.cpp:239-245 | exactly 2n servers, alternately eth without secret and engine with secret, both of a round on the same context; each context hosts exactly one pair |
| `Daemon.EachContextOnce` | silkworm/silkrpc/daemon.cpp:239-245 | from any round-robin position each context is used in exactly one of the n rounds |
| `Daemon.RoundsHostOnePairEach` | silkworm/silkrpc/daemon.cpp:239-245 | so whatever the position, each context hosts exactly one eth server and one engine server, and there are no others |
| `Daemon.RpcDaemon.constructor` | silkworm/silkrpc/daemon.cpp:205-215 | settings and secret are kept; the pool has one context per setting and a round-robin position within it |
| `Daemon.RpcDaemon.Start` | silkworm/silkrpc/daemon.cpp:238-255 | the servers as above, with ports, API specifications and secrets spelled out; services, then stream, then pool, position by position; what was done is a prefix of that, cut where something threw |
| `Daemon.RpcDaemon.Stop` | silkworm/silkrpc/daemon.cpp:257-266 | stream, then pool, then each service; cut where something threw |
| `Daemon.Run` | silkworm/silkrpc/daemon.cpp:53-147 | anything is done only if settings and secret are good and, without a data directory, all four core services compatible; conversely, with those, a non-zero number of contexts and no exception at once, something is done; everything done is a prefix of one fixed life, cut only by an exception or for want of a signal; exit code -1 exactly for bad settings or secret |
| `Daemon.LifeIsOrderly` | silkworm/silkrpc/daemon.cpp:131-137 | in every prefix of that life each action is in its place, listed one by one; nothing happens twice, stopping follows a complete start, only started services are stopped, and joining follows all stops |
| `StateChanges.ExplicitIffWhole` | silkworm/silkrpc/ethdb/kv/state_cache.cpp:85-112 | configured with storage, on_new_block takes in all a batch says if and only if every change that carries storage changes has the action STORAGE |
| `StateChanges.BatchAccountsAgree` | silkworm/silkrpc/ethdb/kv/state_cache.cpp:85-112 | however configured, it takes in all a batch says of accounts, and of storage nothing the batch does not say |
| `StateChanges.NoSlotsWithoutStorage` | silkworm/silkrpc/ethdb/kv/state_cache.cpp:99-104 | without storage no slot is set |
| `StateChanges.StorageKeysAreNotAccounts` | silkworm/silkrpc/core/rawdb/util.cpp:31-37 | no storage key is as long as an account key |
| `StateChanges.StorageKey` | silkworm/silkrpc/core/rawdb/util.cpp:31-37 | 60 bytes: the address, the incarnation in big-endian order, the location |
| `StateChanges.StorageKeyIsInjective` | silkworm/silkrpc/core/rawdb/util.cpp:31-37 | different slots have different keys |
| `ChangeMeaning.MeansIff` | silkworm/silkrpc/ethdb/kv/state_cache.cpp:84-158 | the entries of a list of changes, when all they say is read, are what the changes mean: for each key the last change that names it decides |
| `ChangeMeaning.LastAccountIsSet` | silkworm/silkrpc/ethdb/kv/state_cache.cpp:85-112 | however a batch is read, the last change that sets or removes an account decides its value |
| `RecentKeys.EffectOfConcatenation` | silkworm/silkrpc/ethdb/kv/state_cache.cpp:83-114 | applying one list of changes after another is applying their concatenation, later changes winning |
| `RecentKeys.TouchTracks` | silkworm/silkrpc/ethdb/kv/state_cache.cpp:237-240 | a hit that moves its key to the front keeps the eviction list holding each cached key exactly once |
| `RecentKeys.ReplacedTracksIff` | silkworm/silkrpc/ethdb/kv/state_cache.cpp:163-177 | replacing a key of a list in step keeps it in step if and only if the key read through the erased entry is the replaced one |
| `RecentKeys.DropOldestTracks` | silkworm/silkrpc/ethdb/kv/state_cache.cpp:180-186 | the oldest key is in the cache, and dropping it from both keeps them in step |
| `RecentKeys.PutAllTracks` | silkworm/silkrpc/ethdb/kv/state_cache.cpp:160-188 | from a list in step, any additions keep it in step and within the limit, and the assertion on erased keys holds, if every key read through an erased entry is the erased one |
| `RecentKeys.PutFailsIff` | silkworm/silkrpc/ethdb/kv/state_cache.cpp:173-186 | whatever key is read, the assertion fails if and only if the other listed keys fill the limit and the last of them is neither cached nor the added key |
| `RecentKeys.PutAllOverfullIff` | silkworm/silkrpc/ethdb/kv/state_cache.cpp:179-186 | in step and if every key read through an erased entry is the erased one, after some additions the list is too long if and only if it was so by more than the number of hits |
| `RecentKeys.PutAllSize` | silkworm/silkrpc/ethdb/kv/state_cache.cpp:160-188 | from any start and whatever is read, the number of cached keys after some additions: one more for each new key, one less for each dropped key that is cached |
| `RecentKeys.PutAllKeepsMostRecent` | silkworm/silkrpc/ethdb/kv/state_cache.cpp:160-188 | dropping one key at a time leaves what cutting once at the end would: the most recently used keys, each with its last value; if every key read through an erased entry is the erased one |
| `RecentKeys.StaysIff` | silkworm/silkrpc/ethdb/kv/state_cache.cpp:173-186 | an old key that is not used again stays if and only if fewer keys than the limit were used since or are before it; if every key read through an erased entry is the erased one |
| `RecentKeys.NothingDropped` | silkworm/silkrpc/ethdb/kv/state_cache.cpp:160-188 | with room for all keys the cache is the old one updated with all entries; if every key read through an erased entry is the erased one |
| `RecentKeys.PutAllAddsNothing` | silkworm/silkrpc/ethdb/kv/state_cache.cpp:160-188 | whatever is read, nothing is cached but what the entries or the old cache give |
| `KeyOrder.ListKeys` | silkworm/silkrpc/ethdb/kv/state_cache.cpp:325-328 | the rebuilt eviction list holds the keys in descending order |
| `KeyOrder.DescendingIsOrdered` | silkworm/silkrpc/common/util.hpp:42-44 | that list is strictly descending in the lexicographic order of keys |
| `KeyOrder.LessIff` | silkworm/silkrpc/common/util.hpp:42-44 | the order of keys is decided by the first byte that differs, a proper prefix coming first |
| `CacheViews.EvictRootsLeaves` | silkworm/silkrpc/ethdb/kv/state_cache.cpp:347-367 | eviction removes roots and changes none; it removes the one being advanced if and only if there are too many and its id is not beyond the wrapped bound |
| `CacheViews.NextViewLostIff` | silkworm/silkrpc/ethdb/kv/state_cache.cpp:361-366 | the view after the latest is lost if and only if there are too many roots and fewer views than the limit have gone by |
| `CacheViews.ViewsBounded` | silkworm/silkrpc/ethdb/kv/state_cache.cpp:360-366 | past the first views, eviction leaves no more than the configured number |
| `CacheViews.NewestViewsAreKept` | silkworm/silkrpc/ethdb/kv/state_cache.cpp:347-367 | from construction at any view id, after batches for consecutive views exactly the newest views up to the limit have roots, and no batch is lost |
| `CacheViews.GoneForGood` | silkworm/silkrpc/ethdb/kv/state_cache.cpp:304-313 | a root once gone never comes back over any steps: one created again for its view is another |
| `CacheViews.FirstBatchLostIff` | silkworm/silkrpc/ethdb/kv/state_cache.cpp:347-367 | from construction, after reads of any views, exactly when the first batch loses its root |
| `StateCache.NewStateCache` | silkworm/silkrpc/ethdb/kv/state_cache.cpp:44-48 | a limit of no views is refused, otherwise the cache starts empty |
| `StateCache.CoherentStateCache.Add` | silkworm/silkrpc/ethdb/kv/state_cache.cpp:160-188 | least recently used replacement for the latest view, whatever key is read through the erased entry, plain insertion for others; exactly when the assertion fails and a key is misread, and how many keys there are afterwards |
| `StateCache.CoherentStateCache.GetView` | silkworm/silkrpc/ethdb/kv/state_cache.cpp:50-55 | a root is created for an unknown view, and a view is given only for a ready root |
| `StateCache.CoherentStateCache.Find` | silkworm/silkrpc/ethdb/kv/state_cache.cpp:220-243 | no root, a hit with the cached value or a miss with the root it looked in; a hit in the latest view makes its key the most recent |
| `StateCache.CoherentStateCache.Fill` | silkworm/silkrpc/ethdb/kv/state_cache.cpp:254-259 | a dangling write if and only if the root found before is not there any more; otherwise only that root changes, by the given entry |
| `StateCache.CoherentStateCache.AdvanceRoot` | silkworm/silkrpc/ethdb/kv/state_cache.cpp:315-345 | the new canonical root starts from the preceding view if that is canonical, otherwise from what it held, with the eviction list rebuilt in the order of keys; which roots remain is spelled out by `RootsAfterBatch` |
| `StateCache.CoherentStateCache.ProcessChange` | silkworm/silkrpc/ethdb/kv/state_cache.cpp:85-112 | one account change adds the entries the switch takes from it, whose meaning is that of `MeansIff` |
| `StateCache.CoherentStateCache.ProcessStorage` | silkworm/silkrpc/ethdb/kv/state_cache.cpp:147-158 | all storage changes of an account are added in order |
| `StateCache.AppliedMeans` | silkworm/silkrpc/ethdb/kv/state_cache.cpp:73-120 | which roots there are after a batch is told by view ids, no other root is changed, and the view's root and the list are the start updated with the batch |
| `StateCache.RootsAfterBatch` | silkworm/silkrpc/ethdb/kv/state_cache.cpp:347-367 | which views have a root after a batch, in plain integers: all with no more than the limit, only the new one if its id is zero, otherwise those beyond the latest view plus one minus the limit, plus 2^64 where that is negative |
| `StateCache.NothingForgotten` | silkworm/silkrpc/ethdb/kv/state_cache.cpp:73-120 | with room, no misread and the list in step, a batch that extends the latest view leaves what it does not touch as it was, and every account it sets or removes is found with the data of the last change that names it |
| `StateCache.CoherentStateCache.OnNewBlock` | silkworm/silkrpc/ethdb/kv/state_cache.cpp:73-120 | a dangling write if and only if eviction destroys the root being advanced; otherwise which views have roots, that other roots are unchanged, and that an account still cached is found with the data of the last change that names it, with nothing if that removes it, and with its inherited value if there is none |
| `CacheRuns.RunViews` | silkworm/silkrpc/ethdb/kv/state_cache.cpp:304-367 | over any steps the roots there are depend on view ids alone |
| `CacheRuns.Drive` | silkworm/silkrpc/ethdb/kv/state_cache.cpp:50-260 | over any interleaving a dangling write happens if and only if the view ids foretell it; up to then states and lookups are the expected ones |
| `CacheRuns.BatchKeepsCoherent` | silkworm/silkrpc/ethdb/kv/state_cache.cpp:73-120 | a faithful batch keeps cached accounts right in every configuration, and slots if it is explicit and storage is taken in |
| `CacheRuns.FaithfulIff` | silkworm/silkrpc/ethdb/kv/state_cache.cpp:84-114 | a batch means the difference between two views of the database, change by change, if and only if all its entries together account for it |
| `CacheRuns.RunCoherent` | silkworm/silkrpc/ethdb/kv/state_cache.cpp:50-260 | safety over whole runs, whatever keys are read through erased entries: the same for any interleaving of blocks, views, lookups and stores without a dangling write |
| `CacheRuns.Run` | silkworm/silkrpc/ethdb/kv/state_cache.cpp:44-260 | from construction, and whatever keys are read through erased entries, every hit before a dangling write is the database's value in that view |
| `CacheRuns.SlotIsRightIff` | silkworm/silkrpc/ethdb/kv/state_cache.cpp:84-114 | what the inherited cache and the batch as it was read say of a slot is right if and only if the batch does not set it, or sets it to that value |
| `CacheRuns.BlockCoherentIff` | silkworm/silkrpc/ethdb/kv/state_cache.cpp:84-114 | however configured and however full, a block keeps coherence if and only if, for each slot that stays and that the batch sets, the inherited cache updated with what was read from the batch says the value the batch means |
| `CacheRuns.SkippedStorageCoherentIff` | silkworm/silkrpc/ethdb/kv/state_cache.cpp:99-104 | without storage: if and only if the batch leaves every slot that stays at its inherited value |
| `CacheRuns.SlotStaysIff` | silkworm/silkrpc/ethdb/kv/state_cache.cpp:160-188 | which inherited keys stay that the batch as read does not set, counted from the eviction list and the keys of the batch, in any configuration; if every key read through an erased entry is the erased one |
| `CachedReads.ReadMissed` | silkworm/silkrpc/ethdb/kv/state_cache.cpp:245-259 | a miss answers as the database does and dangles if and only if its root is destroyed before it stores |
| `CachedReads.GetOne` | silkworm/silkrpc/ethdb/kv/cached_database.cpp:33-53 | for any key and any cache, the answer is what the lookup found or the database's, and exactly when a write dangles; for an account, or a slot of a cache that takes in storage, it is right if and only if the root was not ready, or the view still has a root at the lookup, or the database has no value, and coherence is kept |
| `CachedReads.SlotReadIff` | silkworm/silkrpc/ethdb/kv/state_cache.cpp:220-259 | where storage changes may be left out, a slot of the view just reached is read right if and only if it did not stay cached, or the batch does not set it, or it was read as the batch means it |
| `CacheLimits.NextInStep` | silkworm/silkrpc/ethdb/kv/state_cache.cpp:160-345 | every orderly step keeps the eviction list in step with the latest view and the assertion true, if every key read through an erased entry is the erased one |
| `CacheLimits.RunInOrder` | silkworm/silkrpc/ethdb/kv/state_cache.cpp:44-345 | from construction at any view id and with any reads, if every key read through an erased entry is the erased one: with orderly batches the assertion never fails, and if no view but the latest is read before its batch the latest view never exceeds its key limit |
| `CacheLimits.OverfullIff` | silkworm/silkrpc/ethdb/kv/state_cache.cpp:315-345 | in step or not, a batch leaves the latest view with too many keys if and only if those it starts from are too many by more than its additions make up for |
| `CacheTightness.DisorderlyFails` | silkworm/silkrpc/ethdb/kv/state_cache.cpp:318-322 | the condition on batches cannot be done without: for every schedule of views that ends with a disorderly batch there are changes for which the assertion fails |
| `CacheTightness.ReadBeforeOverflows` | silkworm/silkrpc/ethdb/kv/state_cache.cpp:323-328 | nor can the condition on reads: for every schedule of views that ends with a batch for a view read before, there are reads that leave the latest view with too many keys |
| `CacheFailures.EvictedRead` | silkworm/silkrpc/ethdb/kv/cached_database.cpp:36-40 | a run in which a read of an existing key answers with the empty value |
| `CacheFailures.DanglingStore` | silkworm/silkrpc/ethdb/kv/state_cache.cpp:254-257 | a run in which a read stores into a destroyed root |
| `CacheFailures.FirstBatchAfterReads` | silkworm/silkrpc/ethdb/kv/state_cache.cpp:349-366 | reads, then a first batch: exactly when the batch is written to a destroyed root |
| `CacheFailures.LostBatch` | silkworm/silkrpc/ethdb/kv/state_cache.cpp:349-366 | two reads and a batch, with room for two views, are such a run |
| `CacheFailures.StaleSlot` | silkworm/silkrpc/ethdb/kv/state_cache.cpp:86-104 | a run in which a slot is found with a value its view no longer has, for every change whose storage part is left out |
| `CacheFailures.SlotOfUpsert` | silkworm/silkrpc/ethdb/kv/state_cache.cpp:86-89 | such changes exist with the action UPSERT |
| `CacheListFailures.RepeatedBatch` | silkworm/silkrpc/ethdb/kv/state_cache.cpp:318-322 | a run in which a batch delivered twice makes the assertion fail |
| `CacheListFailures.OverfullView` | silkworm/silkrpc/ethdb/kv/state_cache.cpp:323-328 | a run in which the latest view has more keys than its limit |
| `CacheListFailures.MisreadBatch` | silkworm/silkrpc/ethdb/kv/state_cache.cpp:163-186 | one orderly batch for which the assertion fails when another key is read through the erased entry |
| `CacheListFailures.ForgottenKeys` | silkworm/silkrpc/ethdb/kv/state_cache.cpp:318-322 | a run in which a batch delivered twice leaves the latest view with more keys than its limit and an empty list |

## Left out

- `KvMessages`: setters of `Cursor` and `Pair` are functional updates of values; the arena storage of their string fields is not modelled.
- gRPC transport, channels, deadlines, logging and the wire format; of an operation only its message, its success and its reply remain.
- The lifetime of the `Cursor*` that `write_start` keeps: a write takes its message by value.
- The pair member a failed read of the callback client passes on: no continuation looks at it, and the log records the default pair.
- Termination signals of the callback client, which stop its `io_context` early.
- Helper methods of the blocking and the completion-queue clients stand for the commented sections of one long function; the order of operations is the source's.
- KvSystem: a server that answers each message at once; requests of several clients and server-side limits are not modelled.
- `GenericSwap`, `CopyFrom`, `GetOwnedMessage` and `DuplicateIfNonNull` are library code, modelled by what they promise; GenericSwap's temporary message is not.
- The identity test against the default instance in `has_*`, destructors of messages and arenas, and sub-messages inside sub-messages, whose contents are plain bytes here.
- The four Engine messages share one model in which a field is an index.
- `from_json` conversions (but for configurations), JSON rendering and what JSON indexing throws, the backend and the database are parameters of the handlers; `id` and `params` are taken to be present.
- TransitionConfig.ConfigurationIsRead: the conversions of the difficulty and the hash are parameters, and one exception stands for every missing or malformed member.
- Daemon.Run: reading the secret file, the filesystem and the protocol checks are inputs that do not throw; the pool's destructor and the terminate handler are not modelled; the number of contexts fits a positive `int`, as its loop counter demands.
- The code cache of the state cache (`add_code`, `get_code`): the same code over another table.
- Hit, miss and key counters of the state cache.
- StateCache.CoherentStateCache.Add: reading through the pointer to an erased entry is taken to give some key and not to fail, because nothing more is known of undefined behaviour; the return value is left out.
- StateCache.CoherentStateCache.OnNewBlock: what happens after a write to a destroyed root is not modelled, because it is undefined; all state is arbitrary from then on.
- CacheRuns.Drive: locked sections are atomic steps, so that two hits at once, which change the eviction list under a shared lock and so race on it, are excluded; the shared lock that a miss holds during its database read is taken to be released, which allows more interleavings; `Store` steps may name any root, so that those of actual reads are among them.
- CacheRuns.RunCoherent: batches are assumed faithful, that is, they mean, change by change, every difference between consecutive views of the database.
- CacheLimits.RunInOrder: over whole runs, conditions on view ids that `CacheTightness` shows cannot be done without for some batches and reads; the exact conditions, which depend on the keys in use, are stated for one addition (`PutFailsIff`) and for one batch (`OverfullIff`).
- Everything else in the repository: the `eth`, `debug`, `trace` and other namespaces, the EVM executor, the HTTP server, remote cursors and streaming RPC coroutines, the coroutine and unary `ethbackend` clients, and the toolbox.
