# Cuberef, verified

Cuberef is a voxel game: a server that owns the map, clients that show a part of it. This project models its five
hardest parts in Dafny and proves what they are for.

* **The map cache** (`MapProtocol`, `MapFailures`, `MapErrors`, `MapJam`, `GameMap`, `MapOperations`, `MapChunks`,
  `ChunkStorage`, `Coordinates`, `DbKeys`, `MapHistory`). The server keeps chunks of 16 x 16 x 16 blocks in memory in
  front of a key-value database, loads or generates them on demand, writes them back behind, evicts and flushes them.
  `MapProtocol` is a state machine of any number of threads at the level of the lock on the chunk map, the mutex of
  each chunk, the empty holders of the two-phase load, the writeback queue and the batch. Its main theorem is that the
  whole thing is a plain map from blocks to cells; `MapHistory` says what each access left there. `GameMap` has the
  operations as methods of a class, one at a time; `MapOperations` shows that each of them is a run of the state
  machine. `ChunkStorage` says exactly what survives the database form of a chunk.
* **Items** (`Items`, `Inventories`, `InventoryViews`, `InventoryAccess`, `ViewClearing`, `HomeReturns`,
  `PlayerActions`, `ClickRules`, `ClientMoves`). Stacks merge, split and swap through views of transient, stored and
  in-block inventories, which may share a backing. The server's actions are described slot by slot, with the exact
  condition under which they conserve items. What a click is to do is written down by itself in `ClickRules`; the
  client keeps to it, and its prediction is compared with the server's actions.
* **Chunk replication** (`ChunkTable`, `Subscriptions`, `Replication`, `Connection`, `AckProtocol`). What the server
  remembers of the client's cache, against the cache, with messages under way; which chunks are sent and when all have
  arrived; the sequence numbers of the other direction.
* **Meshes** (`CubeFaces`, `FaceBuffers`, `Meshing`, `MeshSides`, `MeshLocality`, `Uncovering`, `MeshCache`,
  `MeshUnsubscribe`, `ClientContext`). Which faces a mesh has, how far a change can show, and why cached meshes are
  right.
* **The furnace and the block registry** (`Furnace`, `FurnaceLedger`, `FurnaceProgress`, `BlockRegistry`,
  `IdStability`).

Code that changes things in place is a class whose methods are proved against specification functions; the lemmas are
about these functions and about the state machines built from them. Run theorems quantify over every sequence of
steps. `Wrappers` holds options, results, machine integers and finite sums.

What a reader may want to know first:

* Edits must leave extended data that its block type can write and read back, each time anew, maybe changed. In the
  source an error while a chunk is written on eviction loses the whole chunk, block ids included; `MapFailures` says
  exactly when, and `MapErrors` has the run. Extended data itself is part of the refinement for any set of blocks all
  of whose edits also leave data that comes back unchanged and mark its changes (`set_dirty`), as the source's
  comments ask for. The furnace's timer does not always: `FurnaceProgress.UnsavedExactly` says which of its ticks
  leave a change unmarked.
* An editor that waits for room in the writeback queue with its chunk locked, and the writeback thread waiting for
  that chunk, block each other for good; `MapJam` says exactly when.
* Once the writeback thread has stopped, edits are still made, but their requests are refused and no chunk is
  generated.
* The map generator is a function of the chunk coordinate.
* An inventory action whose destination slot is past the end of its view destroys what was taken; the conservation
  results carry the exact condition.
* The mesh worker sorts its queue and calls `shrink_to(MESH_BATCH_SIZE)`, which does not shorten a vector: it takes
  the whole queue, and so does the model.
* The first update of a batch is sent to the client without asking whether the client is interested, as the source
  does; and since the source never notes an interest, all updates queued behind it are dropped
  (`Replication.QueuedUpdatesDropped`).
* The server acknowledges only messages that it handled without an error; `AckProtocol` shows what a missing
  acknowledgement does.
* The source takes the left texture for both sides of a cube along x, and so does the model.

## Model

| member | source | states |
|---|---|---|
| MapProtocol.CacheRefinesPlainMap | cuberef_server/src/game_state/game_map.rs:681-1273 | from any readable database, over every run of loads, edits, writebacks, evictions and flushes by any number of threads, the block at each coordinate is that of a plain map changed only by the edits, and each edit found what the plain map had at its moment; for every set of blocks whose edits leave storable data and mark its changes, their extended data too. The edits must leave data that can be written and read back: see `MapFailures.EvictionKeepsIdsExactly` for the others |
| MapProtocol.RestartLosesOnlyUnsaved | cuberef_server/src/game_state/game_map.rs:681-1273 | under the same rules, in every reachable state a new server on the same database serves each chunk without unsaved edits as it is, and every chunk with unsaved edits is resident and dirty, and as long as the writeback thread has not stopped, queued, in the batch, or about to be queued by its editor |
| MapProtocol.FlushPersists | cuberef_server/src/game_state/game_map.rs:1114-1135 | under the same rules, once every chunk is unloaded, a new server on the database serves the plain map |
| MapProtocol.LoadsAreExclusive | cuberef_server/src/game_state/game_map.rs:918-981 | in every reachable state a guard finds its chunk, `fill` and `set_err` find an empty holder, no chunk is loaded twice at a time, and a thread with the write lock sees no chunk being loaded or edited |
| MapProtocol.LoadersAndEditorsProceed | cuberef_server/src/game_state/game_map.rs:496-533 | in every reachable state a loaded chunk can be filled in at once, and a thread with the mutex of a chunk finds it filled and well-formed |
| MapProtocol.LocksKept | cuberef_server/src/game_state/game_map.rs:932-975 | every step leaves the read-write lock and the holders' mutexes held by exactly the threads that are in the phases that hold them |
| MapProtocol.ResidentKept | cuberef_server/src/game_state/game_map.rs:918-981 | every step keeps: guards find their chunks, holders are empty exactly while one thread loads them |
| MapProtocol.WriterSeesNoLoad | cuberef_server/src/game_state/game_map.rs:1010-1036 | unloading never drops a chunk that is being loaded or edited |
| MapProtocol.SavedLooksSame | cuberef_server/src/game_state/game_map.rs:1022-1029 | a chunk whose data can be written and read back is written, is read back in its saved form, and looks the same then |
| MapProtocol.EditedContents | cuberef_server/src/game_state/game_map.rs:314-355 | an edit that leaves a chunk clean changed nothing that is observed |
| MapProtocol.DataKept | cuberef_server/src/game_state/game_map.rs:987-1036 | every step keeps: a clean resident chunk agrees with the database, a chunk on its way into its holder is the stored or the generated one |
| MapProtocol.CurrentKept | cuberef_server/src/game_state/game_map.rs:1010-1036 | loading, writing back, evicting and all other steps but an edit of the chunk leave what it shows unchanged |
| MapProtocol.ViewKept | cuberef_server/src/game_state/game_map.rs:681-715 | an edit shows at its own block and nowhere else |
| MapProtocol.RefinesKept | cuberef_server/src/game_state/game_map.rs:681-1273 | every step keeps the served map equal to the plain map |
| MapProtocol.NoneLostKept | cuberef_server/src/game_state/game_map.rs:1239-1273 | every step keeps an edited chunk resident and dirty until it is written, and queued, in the batch, or held by its editor unless the writeback thread has stopped, when requests are refused |
| MapProtocol.DurableKept | cuberef_server/src/game_state/game_map.rs:1010-1036 | every step keeps a chunk without unsaved edits equal to what the database or the generator gives |
| MapProtocol.InvariantKept | cuberef_server/src/game_state/game_map.rs:918-1036 | all of these together, for every step |
| MapProtocol.KeepLastKeeps | cuberef_server/src/game_state/game_map.rs:1343-1355 | gathering keeps each coordinate, once |
| MapProtocol.KeepLastInOrder | cuberef_server/src/game_state/game_map.rs:1343-1355 | gathered coordinates are in the order of their last occurrence |
| MapFailures.ChunksAreAlwaysWritten | cuberef_server/src/game_state/game_map.rs:180-437 | in every reachable state each chunk in memory can be serialized, parsing gives its saved form, and each stored chunk can be parsed: no write and no decoding fails |
| MapFailures.WritebackStopsOnlyIfDisturbed | cuberef_server/src/game_state/game_map.rs:1224-1273 | in every run of edits that keep the rules, the writeback thread ends only if some load failed before, or at shutdown |
| MapFailures.WriteFailsExactly | cuberef_server/src/game_state/game_map.rs:1239-1273 | in every reachable state the writeback thread can end with an error exactly if it is at work and the first chunk of its batch has failed to load and is not locked |
| MapErrors.StopIsReachable | cuberef_server/src/game_state/game_map.rs:1239-1273 | one edit, an eviction and one failed load bring it there from a server that has just started |
| MapFailures.EvictionKeepsIdsExactly | cuberef_server/src/game_state/game_map.rs:1010-1036 | without any rule: evicting a dirty chunk keeps its block ids exactly if each block's data can be written and read back, or the chunk cannot be written and what is stored has the same ids anyway |
| MapErrors.UnserializableEditIsLost | cuberef_server/src/game_state/game_map.rs:1010-1036 | a block whose data cannot be serialized is placed and its chunk evicted, in a run from a server that has just started: the edit is in the history and the server shows the generated chunk |
| MapErrors.NoRules | cuberef_server/src/game_state/game_map.rs:681-1036 | the same steps are enabled and do the same whatever the rules; without rules every edit is allowed |
| MapJam.JammedExactly | cuberef_server/src/game_state/game_map.rs:1045-1071 | in every reachable state, an editor that has to queue its chunk and the writeback thread block each other exactly if the queue is full and the first chunk of the batch is the one the editor has locked |
| MapJam.JammedForever | cuberef_server/src/game_state/game_map.rs:1045-1071 | no step of any thread ends this |
| MapJam.JamIsReachable | cuberef_server/src/game_state/game_map.rs:1045-1071 | one thread placing blocks gets there from a server that has just started |
| GameMap.ServerGameMap.GetChunk | cuberef_server/src/game_state/game_map.rs:918-1004 | a missing chunk is read from the database, clean, or generated, dirty and queued; an unreadable one, or one whose request is refused, leaves a failed holder; a resident one is returned; nothing else changes but its access time |
| GameMap.ServerGameMap.EnqueueWriteback | cuberef_server/src/game_state/game_map.rs:1045-1071 | queues the chunk, or refuses once the writeback thread has stopped |
| GameMap.ServerGameMap.GetBlock | cuberef_server/src/game_state/game_map.rs:643-678 | returns the block found, wherever its chunk was, or nothing if its chunk cannot be loaded, and changes no block |
| GameMap.ServerGameMap.SetBlock | cuberef_server/src/game_state/game_map.rs:681-715 | the block is the new one afterwards and no other block of any chunk differs, the chunk is dirty and queued, and the previous block is returned; if the request is refused the block is replaced all the same and an error returned |
| GameMap.ServerGameMap.CompareAndSetBlock | cuberef_server/src/game_state/game_map.rs:752-798 | the block is the new one afterwards exactly if the predicate holds of the one found, and then the chunk is dirty and queued; no other block differs, and otherwise nothing is marked or queued; a refused request as in `SetBlock` |
| GameMap.ServerGameMap.MutateBlockAtomically | cuberef_server/src/game_state/game_map.rs:807-819 | the block has the id and the extended data that the mutator makes of the block found, and no other block of any chunk differs; the chunk is dirty exactly if it was, was generated, the id is another or the mutator said so, and queued if it is dirty then, or the request refused |
| GameMap.AccessLeaves | cuberef_server/src/game_state/game_map.rs:643-819 | each kind of access, told from what was asked for: which block is left in the chunk wherever it was found, that all other blocks, chunks and the database are as before, when the chunk is marked and queued, and what is remembered; exactly if the chunk cannot be loaded it leaves a failed holder alone |
| MapHistory.ServedIsLastLeft | cuberef_server/src/game_state/game_map.rs:643-819 | in every run, a block is served as the last access to it left it: as found, as given, as given if it matched, or with the id and data its mutator made; and as stored or generated without one |
| MapHistory.FoundIsLastLeft | cuberef_server/src/game_state/game_map.rs:643-819 | in every run, each access found its block as the access to it before had left it |
| GameMap.ServerGameMap.UnloadChunkLocked | cuberef_server/src/game_state/game_map.rs:1010-1036 | the chunk leaves memory, and then its serialized form is stored exactly if it is dirty and can be serialized; a dirty one that cannot is lost with an error; the database does not change otherwise |
| GameMap.ServerGameMap.Flush | cuberef_server/src/game_state/game_map.rs:1114-1135 | every chunk is unloaded, whatever the order, and whether or not some are lost |
| GameMap.ServerGameMap.DoWritebacks | cuberef_server/src/game_state/game_map.rs:1239-1273 | each gathered chunk that is in memory is written and becomes clean, up to the first that failed to load or cannot be serialized, which ends the pass with an error and the acceptance of requests |
| GameMap.WritesAllBack | cuberef_server/src/game_state/game_map.rs:1239-1273 | a batch passes as a whole exactly if each of its chunks in memory can be written; then each of them is stored in serialized form and clean, with the same blocks, and nothing else has changed |
| GameMap.Deduplicated | cuberef_server/src/game_state/game_map.rs:1343-1355 | the reversed, filtered, reversed list is the received one with all but last occurrences dropped |
| GameMap.ServerGameMap.CleanupRound | cuberef_server/src/game_state/game_map.rs:1176-1208 | one round unloads, of the chunks old enough at that moment, at most 32 besides the 128 most recently used, up to the first error, and says whether more remain |
| GameMap.ServerGameMap.DoCleanup | cuberef_server/src/game_state/game_map.rs:1176-1209 | the cleanup terminates; it unloads only old enough chunks, each no more recently used than 128 old enough ones that stay; it ends with an error exactly if it lost a chunk, and otherwise with at most 128 chunks or at most 128 old enough ones |
| GameMap.CleanedMore | cuberef_server/src/game_state/game_map.rs:1176-1209 | a further round keeps that all evicted chunks are no more recently used than 128 old enough ones that stay, though time has passed |
| GameMap.UnloadedTwice | cuberef_server/src/game_state/game_map.rs:1010-1036 | unloading in two goes stores and loses the same chunks as all at once |
| GameMap.GoodNeverFails | cuberef_server/src/game_state/game_map.rs:1010-1036 | a chunk of a map whose edits keep the rules is always written, and loaded unless it has to be generated when requests are refused |
| GameMap.EditShowsAtItsBlock | cuberef_server/src/game_state/game_map.rs:681-819 | each access to a block, loading included, shows at that block only, whether or not its request is refused, and nowhere if its chunk cannot be loaded |
| GameMap.LoadingShowsNothing | cuberef_server/src/game_state/game_map.rs:918-1004 | loading a chunk changes no observed block, even when it fails |
| GameMap.UnloadingShowsNothing | cuberef_server/src/game_state/game_map.rs:1010-1036 | unloading any set of chunks, as the cleanup and the flush do, changes no observed block and keeps clean chunks in agreement with the database |
| MapOperations.EditIsRun | cuberef_server/src/game_state/game_map.rs:918-1071 | each of the four accesses, done alone, is a run of the cache protocol, failed loads included; with a full queue, after the writeback thread has taken entries; so all that holds in the reachable states holds between accesses |
| MapOperations.RefusedEditIsRun | cuberef_server/src/game_state/game_map.rs:918-1071 | the same once the writeback thread has stopped: the edit is made and its request refused |
| MapOperations.UnloadIsRun | cuberef_server/src/game_state/game_map.rs:1114-1209 | unloading any set of chunks is a run of the protocol, even if some are lost |
| MapOperations.WritebackIsRun | cuberef_server/src/game_state/game_map.rs:1239-1273 | writing back a batch is a run of the protocol; an error stops the thread for good |
| MapOperations.Solo | cuberef_server/src/game_state/game_map.rs:918-981 | a thread that is alone in the map is never blocked by a lock |
| MapChunks.MapChunk.Store | cuberef_server/src/game_state/game_map.rs:297-311 | the block and its extended data are overwritten in place; all others stay |
| MapChunks.MapChunk.MutateBlockAtomically | cuberef_server/src/game_state/game_map.rs:314-355 | in place: the block has the id and the data of the mutator's result, all other blocks are as before, and the chunk is dirty exactly if it was, the id changed or the mutator said so |
| MapChunks.GetAfterSet | cuberef_server/src/game_state/game_map.rs:297-311 | a written block is read back, all others are as before |
| ChunkStorage.Serialize | cuberef_server/src/game_state/game_map.rs:180-275 | one pass over 4096 blocks produces the stored form, or the first error |
| ChunkStorage.ParseV1 | cuberef_server/src/game_state/game_map.rs:358-437 | one pass over the stored entries produces the chunk, or the first error |
| ChunkStorage.KeptExactly | cuberef_server/src/game_state/game_map.rs:211-275 | extended data comes back unchanged exactly if its block type stores data, it is not empty, its handlers are inverse on it and its inventories are well-formed |
| ChunkStorage.InventoriesKept | cuberef_server/src/game_state/game_map.rs:211-275 | the inventories of a block come back exactly if each has as many slots as its dimensions say and no nameless stack |
| ChunkStorage.StoredAndParsed | cuberef_server/src/game_state/game_map.rs:358-437 | a stored chunk comes back with the same 4096 ids and, block by block, what its types keep of the data |
| ChunkStorage.ChunkRoundTrip | cuberef_server/src/game_state/game_map.rs:180-437 | a chunk is written and comes back equal exactly if all its extended data is storable |
| ChunkStorage.ParsedChunkIsReadable | cuberef_server/src/game_state/game_map.rs:180-437 | a chunk that is written and read back at all has data that each block can write and read back |
| ChunkStorage.SerializedFrom | cuberef_server/src/game_state/game_map.rs:180-275 | a chunk can be written exactly if each block can |
| ChunkStorage.DefaultingDeserializerAddsData | cuberef_game_api/src/default_game/furnace.rs:351-361 | a deserializer that makes something of no bytes adds data to a block that had only an inventory |
| Coordinates.WithOffsetDefined | cuberef_core/src/coordinates.rs:170-195 | joining a chunk with an offset overflows exactly on chunks outside the bounds |
| Coordinates.SplitJoin | cuberef_core/src/coordinates.rs:38-53 | every block lies in an in-bounds chunk at an offset that together name it |
| Coordinates.JoinSplit | cuberef_core/src/coordinates.rs:170-177 | a chunk in bounds and an offset name one block |
| Coordinates.IndexBijection | cuberef_core/src/coordinates.rs:123-135 | offsets and indices are mutually inverse |
| Coordinates.StorageInjective | cuberef_core/src/coordinates.rs:38-53 | two blocks share a storage cell only if they are the same |
| DbKeys.I32RoundTrip | cuberef_server/src/game_state/game_map.rs:85-112 | a zigzag varint decodes to the number, whatever follows |
| DbKeys.BytesRoundTrip | cuberef_server/src/game_state/game_map.rs:114-141 | three varints decode to the coordinate, over all 32-bit coordinates |
| DbKeys.ChunkKeysDistinct | cuberef_server/src/game_state/game_map.rs:114-141 | distinct chunks have distinct database keys, and no other key space has one of them |
| Items.MergeExact | cuberef_server/src/game_state/items.rs:108-139 | merging conserves items, and leaves something over exactly when the stacks do not combine or do not fit |
| Items.TakeExact | cuberef_server/src/game_state/items.rs:220-248 | taking conserves items, hands over at most the count, and does not split what does not stack |
| Items.TakeThenMergeBack | cuberef_server/src/game_state/items.rs:108-248 | what was split off always fits back |
| Items.AllOrNothing | cuberef_server/src/game_state/items.rs:142-274 | the all-or-nothing forms succeed exactly when everything fits, and otherwise change nothing |
| Items.Decrement | cuberef_server/src/game_state/items.rs:164-173 | one item fewer, nothing when it was the last |
| Items.Slot.TryMerge | cuberef_server/src/game_state/items.rs:190-201 | changes the slot and returns the leftovers as the merge says |
| Items.Slot.TryMergeAll | cuberef_server/src/game_state/items.rs:203-218 | merges all or nothing |
| Items.Slot.TakeItems | cuberef_server/src/game_state/items.rs:220-248 | takes all, or a count from a stack that stacks |
| Items.Slot.TryTakeAll | cuberef_server/src/game_state/items.rs:250-274 | takes the count or nothing; the source unwraps the slot |
| Inventories.InsertExact | cuberef_server/src/game_state/inventory.rs:144-162 | insertion conserves every item, keeps stacks within their limits, and leaves a remainder only when no slot is empty, equal to the quantity beyond the free space of the matching slots |
| Inventories.InsertFillsFirst | cuberef_server/src/game_state/inventory.rs:144-162 | matching stacks are filled first to last; an empty slot is used only once all of them are full, is the first one, and holds exactly what they had no room for; no other slot changes |
| Inventories.Inventory.TryInsert | cuberef_server/src/game_state/inventory.rs:144-162 | the two loops do what the specification of insertion says |
| Inventories.ProtoRoundTrip | cuberef_server/src/game_state/inventory.rs:92-129 | an inventory is read back from its database form exactly if it has slots, as many as its dimensions say, and no nameless stack |
| InventoryViews.ReadAfterWrite | cuberef_server/src/game_state/inventory.rs:756-902 | what is written through a view shows through every view of the same slot and nowhere else |
| InventoryViews.WriteTotal | cuberef_server/src/game_state/inventory.rs:756-902 | writing a slot changes the total by what it held and what it holds |
| InventoryViews.TakeConserves | cuberef_server/src/game_state/inventory.rs:756-827 | items taken through a view are in the hand, no other total changes |
| InventoryViews.PutConserves | cuberef_server/src/game_state/inventory.rs:830-902 | items put through a view are in the stores or returned; an error loses the stack |
| InventoryViews.TakeBorrows | cuberef_server/src/game_state/inventory.rs:756-827 | what is taken is borrowed from the stored or in-block slot it was in, or from where the transient view remembers; what stays and all other slots of the view keep their origin |
| InventoryViews.PutBorrows | cuberef_server/src/game_state/inventory.rs:830-902 | a stack put into a transient view keeps its origin unless it comes onto a borrowed one, and what is left over keeps it always |
| InventoryAccess.InventoryStores.Take | cuberef_server/src/game_state/inventory.rs:756-827 | takes from a transient, stored or in-block backing as the specification says, or returns its error |
| InventoryAccess.InventoryStores.Put | cuberef_server/src/game_state/inventory.rs:830-902 | merges into any backing and returns the rest |
| InventoryAccess.InventoryStores.ClearIfTransient | cuberef_server/src/game_state/inventory.rs:522-579 | the loop over the slots returns each stack to its home, its owner, or the list of lost ones |
| ViewClearing.ClearFromConserves | cuberef_server/src/game_state/inventory.rs:522-579 | every item of a cleared view is in the stores or in the list of lost stacks |
| ViewClearing.ReturnStackLoses | cuberef_server/src/game_state/inventory.rs:522-579 | a stack is lost only if there is no owner or the owner's inventory is full |
| ViewClearing.ClearingExact | cuberef_server/src/game_state/inventory.rs:522-579 | without an error a cleared transient view has no stack left, other transient views do not change, all items are in the stores or listed as lost, and one is lost only if there is no owner or its inventory ends full |
| HomeReturns.HomeFirst | cuberef_server/src/game_state/inventory.rs:522-561 | a stack goes back into the slot it was borrowed from if that is free; otherwise that slot is filled before any other of its inventory, and something is left over only if there is no room in all of it; no other inventory changes |
| HomeReturns.OwnerGetsTheRest | cuberef_server/src/game_state/inventory.rs:562-579 | the owner gets something, or something is lost, only if the stack was not borrowed, its place is gone, or its home has no room |
| HomeReturns.ViewGoesHome | cuberef_server/src/game_state/inventory.rs:522-579 | closing a view whose stacks all have free places puts each back into its own, and changes no other slot of any inventory, the owner's included |
| PlayerActions.PlayerState.HandleInventoryAction | cuberef_server/src/game_state/player.rs:175-212 | an action on a view that is not found, or without permission to take from the one and place into the other, changes and loses nothing; every other is attempted as the specification of an action says, and the stacks that end up nowhere are listed |
| PlayerActions.RefusedExactly | cuberef_server/src/game_state/player.rs:175-179 | an action is refused exactly if the source view does not allow taking or the destination view does not allow placing, and then it changes nothing |
| PlayerActions.PlayerState.SwapSlots | cuberef_server/src/game_state/player.rs:180-198 | two takes and two puts, each put checked for leftovers |
| PlayerActions.PlayerState.MoveCount | cuberef_server/src/game_state/player.rs:199-211 | take, put, and put back what did not fit |
| PlayerActions.PlayerState.FindInvView | cuberef_server/src/game_state/player.rs:232-266 | finds the first view with the id among popups, inventory, manipulation and hotbar views |
| PlayerActions.FoundIsView | cuberef_server/src/game_state/player.rs:232-266 | a view is found exactly if one has the id, and it is the first that has |
| PlayerActions.ActionLedger | cuberef_server/src/game_state/player.rs:175-212 | whatever the action, every item is in the stores or in the list of lost stacks |
| PlayerActions.MoveExact | cuberef_server/src/game_state/player.rs:199-211 | a counted move, slot by slot, for views that may share their backing or even their slot: nothing is lost exactly if the destination slot exists or nothing is taken, and then the slots hold what a merge of the split-off stack makes of them, all others being untouched, and all slots are as before if the destination's block has no inventory; otherwise exactly what was taken is lost |
| PlayerActions.SwapExact | cuberef_server/src/game_state/player.rs:180-198 | a swap, slot by slot: nothing is lost exactly if each stack has a slot to go to, and then the contents are exchanged and the leftover checks pass; otherwise exactly the stack without a slot is lost |
| PlayerActions.ActionConserves | cuberef_server/src/game_state/player.rs:175-212 | an action leaves the total of every item as it was exactly if the destination can take the items picked up: the stack in the source slot and, in a swap, in the other, or the split-off part |
| PlayerActions.ActionLoses | cuberef_server/src/game_state/player.rs:175-212 | an action loses no stack, not even an empty one, exactly if the destination can take what is picked up; in particular the branch that destroys leftovers is not reached then |
| PlayerActions.OutOfRangeDestinationLoses | cuberef_server/src/game_state/player.rs:199-203 | a destination slot past the end destroys what was taken |
| ClientMoves.InventoryViewManager.HandleMoves | cuberef_client/src/game_ui/egui_ui.rs:494-728 | the method follows the rules of a click: which stacks move and how many items by button and permission, which action is sent and when none is, and that no other slot changes |
| ClientMoves.InventoryViewManager.CombineOrSwap | cuberef_client/src/game_ui/egui_ui.rs:530-648 | both slots occupied: onto the clicked stack, else onto the carried one, else exchanged, by the same rules |
| ClientMoves.InventoryViewManager.AddToClicked | cuberef_client/src/game_ui/egui_ui.rs:530-574 | a left click puts all that is carried onto the clicked stack or fills it, a right click one item |
| ClientMoves.InventoryViewManager.AddToCarried | cuberef_client/src/game_ui/egui_ui.rs:575-623 | a left click takes the clicked stack onto what is carried as far as it fits, a right click at most the upper half; an exact slot is emptied or left alone |
| ClientMoves.ClickFollowsRules | cuberef_client/src/game_ui/egui_ui.rs:494-728 | told from the client's views before and after any click: the whole, the upper half, one item, what fits, or an exchange, by button, permissions and exact slots; an action is sent exactly if no permission and no room is missing, some slot is occupied, and an exact slot can be emptied; it names the two slots and how many items moved; all other slots are as before |
| ClientMoves.DecisionFollowsRules | cuberef_client/src/game_ui/egui_ui.rs:530-720 | the decision of a click on any two stacks is what these rules ask for |
| ClientMoves.MovePredicted | cuberef_client/src/game_ui/egui_ui.rs:530-720 | the server's counted move leaves the two slots as the client predicted exactly if the moved stack stacks |
| ClientMoves.MovePeek | cuberef_server/src/game_state/player.rs:199-211 | a counted move between different inventories, as their views show it |
| ClientMoves.SwapPeek | cuberef_server/src/game_state/player.rs:180-198 | a swap between different inventories, as their views show it |
| ClientMoves.PredictionMatchesServer | cuberef_client/src/game_ui/egui_ui.rs:494-728 | whenever a click emits an action, the server loses nothing and ends with both views as the client shows them exactly if the action is a swap or the moved stack stacks |
| ClientMoves.ToolPlacementMispredicted | cuberef_client/src/game_ui/egui_ui.rs:650-683 | a stack that does not stack, placed on an empty slot, is shown as placed while the server leaves it in the hand |
| ChunkTable.BuildTable | cuberef_server/src/network_server/client_context.rs:1162-1181 | the zigzag loop, the triple product and the stable sort build the specified table, for any radius |
| ChunkTable.TableIsExact | cuberef_server/src/network_server/client_context.rs:1162-1181 | the table lists every point of the cube exactly once, nearest first |
| ChunkTable.TableEntries | cuberef_server/src/network_server/client_context.rs:1162-1181 | its entries are the points of the cube and no two are equal |
| Subscriptions.ClientOutboundContext.HandlePositionUpdate | cuberef_server/src/network_server/client_context.rs:439-535 | forgets what is far, sends the missing near chunks in table order, one more than `chunks_to_send` at most, then the list of forgotten ones if there are any |
| Subscriptions.ClientOutboundContext.SendMissing | cuberef_server/src/network_server/client_context.rs:490-526 | the loop over the table |
| Subscriptions.ClientOutboundContext.HandleBlockUpdate | cuberef_server/src/network_server/client_context.rs:285-351 | takes the first update and the wanted ones behind it into one batch of at most 256, sends each chunk the client lacks before the batch |
| Subscriptions.BatchedExactly | cuberef_server/src/network_server/client_context.rs:301-315 | the batch gets the wanted updates among those taken from the queue, in order, and no others; the queue is emptied unless the batch is full at 256 |
| Subscriptions.UnknownExactlyOnce | cuberef_server/src/network_server/client_context.rs:319-334 | the chunks sent before the batch are exactly those of its updates that the client lacks, each once |
| Subscriptions.ClientOutboundContext.MaybeSendFullChunk | cuberef_server/src/network_server/client_context.rs:375-409 | sends the chunk exactly if it is not known to the client |
| Subscriptions.ClientOutboundContext.HandleBlockUpdateLagged | cuberef_server/src/network_server/client_context.rs:357-366 | forgets all that was sent |
| Replication.LackingExactly | cuberef_server/src/network_server/client_context.rs:490-505 | what is served is exactly the chunks in bounds, within distance 20, that the client lacks |
| Replication.NearestServedFirst | cuberef_server/src/network_server/client_context.rs:490-526 | a position update serves exactly the lesser of what is lacking and what it may, each chunk once, and none while a nearer one is left |
| Replication.SentAreNotFar | cuberef_server/src/network_server/client_context.rs:462-531 | the chunks sent are not in the unsubscribe list that follows them |
| Replication.MoveKeeps | cuberef_server/src/network_server/client_context.rs:439-535 | a position update keeps what the server remembers within what the client will have |
| Replication.UpdateKeeps | cuberef_server/src/network_server/client_context.rs:285-351 | a block update does |
| Replication.InStepKept | cuberef_server/src/network_server/client_context.rs:285-535 | every step, lag resets and deliveries included, does |
| Replication.NoBugcheckEver | cuberef_client/src/net_client/client_context.rs:350-536 | in every run the client gets no unsubscribe and no delta for a chunk it lacks, and what the server remembers is contained in the client's cache once the channel is drained, and equal to it until a lag reset |
| Replication.QueuedUpdatesDropped | cuberef_server/src/network_server/client_context.rs:285-355 | in every run, since nothing ever makes a client interested in a chunk, a batch is its first update alone, and all queued behind it are dropped |
| Connection.Connected.Move | cuberef_server/src/network_server/client_context.rs:439-535 | the two classes at the ends of one channel: a position update is a step of the replication system, sends whole chunks of the world only, and keeps both sides in step |
| Connection.Connected.Update | cuberef_server/src/network_server/client_context.rs:285-351 | so is a block update |
| Connection.Connected.Lag | cuberef_server/src/network_server/client_context.rs:357-366 | so is a lag reset |
| Connection.Connected.Deliver | cuberef_client/src/net_client/client_context.rs:350-536 | so is the client's handling of the next message, which never makes it complain |
| Connection.Connected.Mesh | cuberef_client/src/net_client/mesh_worker.rs:19-68 | the mesh worker's round at the client's end; all four keep the client's meshes right, waiting, or of chunks with an uncovered side |
| Replication.MoveServes | cuberef_server/src/network_server/client_context.rs:490-526 | a position update brings the number of lacking chunks down by exactly what it may serve, to zero at the least |
| Replication.StayingServesAll | cuberef_server/src/network_server/client_context.rs:439-535 | at a fixed position and without lag, as many position updates as chunks are lacking bring the number to zero, whatever else happens in between |
| Replication.BuiltTable | cuberef_server/src/network_server/client_context.rs:1162-1181 | the server's table has the properties that these results ask of it |
| AckProtocol.ClientContexts.SendSequencedMessage | cuberef_client/src/net_client/client_context.rs:83-101 | takes the next number and waits for its acknowledgement |
| AckProtocol.ClientContexts.SendPositionUpdate | cuberef_client/src/net_client/client_context.rs:104-140 | sends nothing while the last position update is not acknowledged, and ends the outbound loop rather than send a position that is not finite |
| AckProtocol.PositionFate | cuberef_client/src/net_client/client_context.rs:104-140 | a position is held back exactly while the last update is unacknowledged, and otherwise sent with the next number and waited for if it is finite, and ends the loop of a careful client if not |
| AckProtocol.ClientContexts.HandleAck | cuberef_client/src/net_client/client_context.rs:391-405 | drops the number, or counts a bugcheck if it was not waited for |
| AckProtocol.HandleMessage | cuberef_server/src/network_server/client_context.rs:653-724 | acknowledges what was handled without an error and has a number; a position is handled exactly if it is finite |
| AckProtocol.InvariantKept | cuberef_client/src/net_client/client_context.rs:83-140 | every step keeps: numbers under way are distinct and waited for, a position update is outstanding only if it is the last |
| AckProtocol.AcksMatch | cuberef_client/src/net_client/client_context.rs:83-140 | in every run at most one position update is unacknowledged, numbers under way are distinct, and each acknowledgement is for one outstanding number |
| AckProtocol.StallsExactly | cuberef_server/src/network_server/client_context.rs:844-888 | in every run of any client, it waits for an acknowledgement that will not come exactly if its last position update was not finite and has reached the server |
| AckProtocol.StalledForever | cuberef_client/src/net_client/client_context.rs:104-118 | once it does, over every further run, it never sends its position again |
| AckProtocol.OwnClientNeverStalls | cuberef_client/src/net_client/client_context.rs:120-135 | in every run, this client, which refuses to send what is not finite, does not stall |
| AckProtocol.CarelessClientStalls | cuberef_server/src/network_server/client_context.rs:844-888 | a client that sends what is not finite does, in two steps |
| AckProtocol.PositionsGetThrough | cuberef_client/src/net_client/client_context.rs:104-140 | from every reachable state of the game's own client whose loop runs, its next finite position is sent once what is on the way has been handled and acknowledged, in boundedly many steps of the two sides |
| CubeFaces.IndicesRefer | cuberef_client/src/cube_renderer.rs:727-793 | each index of the buffers is in range and refers to the right corner of its own face |
| CubeFaces.FacesFaceOutward | cuberef_client/src/cube_renderer.rs:745-782 | each face lies half a block outwards of its block, and both its triangles are wound the same way as seen from outside |
| CubeFaces.TouchingFacesMatch | cuberef_client/src/cube_renderer.rs:745-782 | two touching blocks have the same corners where they touch |
| CubeFaces.TexturesUpright | cuberef_client/src/cube_renderer.rs:745-782 | on the upright sides the upper corners of the texture are at the upper corners of the face |
| Meshing.BlockRenderer.GetBlockMaybeNeighbor | cuberef_client/src/cube_renderer.rs:468-483 | the shortcut for the own chunk agrees with a lookup |
| Meshing.BlockRenderer.EmitFullCube | cuberef_client/src/cube_renderer.rs:329-456 | the buffers get, besides the faces they had, exactly the sides of the block that belong in the pass |
| Meshing.BlockRenderer.MeshChunkSubpass | cuberef_client/src/cube_renderer.rs:286-327 | the buffers of the three loops have exactly the sides of the chunk that belong in the pass; none if there are none |
| Meshing.BlockRenderer.MeshChunk | cuberef_client/src/cube_renderer.rs:220-284 | each of the three passes has exactly the sides that belong in it: those of blocks of its render mode, with the texture of the side, not hidden by an opaque neighbor (unless transparent) nor by one of the same type (unless solid) |
| Meshing.MeshShowsRight | cuberef_client/src/cube_renderer.rs:220-327 | for all chunks and block types, a face is in the vertex buffer of a pass exactly if its block has a cube of the mode of that pass, the texture is that of the side, and no neighbor hides it, told by ids and render modes; the end of the world and missing chunks hide nothing |
| MeshSides.NoSideBetween | cuberef_client/src/cube_renderer.rs:226-282 | between two touching blocks of one transparent or translucent type no pass of either chunk has a side, whatever their variants, nor has a solid or translucent block one against an opaque one |
| Meshing.PassFacesExact | cuberef_client/src/cube_renderer.rs:220-327 | the list of faces from which the buffers of a pass are made has exactly the drawn sides of the blocks, each with its texture |
| Meshing.PassesDisjoint | cuberef_client/src/cube_renderer.rs:226-282 | no side is drawn in two passes |
| MeshLocality.NextToIsNear | cuberef_core/src/coordinates.rs:55-62 | the block next to a block is in its chunk or in the next one, and back |
| MeshLocality.ChunkShowsAround | cuberef_client/src/net_client/client_context.rs:350-389 | a chunk that comes, changes or goes can change only its own mesh and those of its six neighbors |
| MeshLocality.BlocksShowNearby | cuberef_client/src/net_client/client_context.rs:490-522 | changed blocks can change only the meshes of their chunks and of the chunks of the blocks next to them |
| MeshCache.MapChunkKeeps | cuberef_client/src/net_client/client_context.rs:350-389 | a full chunk, new or replaced, keeps every mesh right or queued |
| MeshCache.DeltaKeeps | cuberef_client/src/net_client/client_context.rs:466-536 | a batch of deltas does |
| MeshCache.DeltasExactly | cuberef_client/src/net_client/client_context.rs:448-536 | a batch of deltas gives each block of a chunk the client has the id of the last update about it and leaves all others |
| MeshCache.UnsubscribeKeeps | cuberef_client/src/net_client/client_context.rs:424-446 | an unsubscribe does, but for the chunks where it uncovers a side |
| MeshCache.StaleIsWrong | cuberef_client/src/net_client/client_context.rs:424-446 | the mesh of a chunk with an uncovered side is not the mesh of the map as it is |
| MeshCache.WorkerKeeps | cuberef_client/src/net_client/mesh_worker.rs:19-68 | taking the queue and meshing a chunk do |
| MeshCache.RoundKeeps | cuberef_client/src/net_client/mesh_worker.rs:19-68 | a whole round of the worker does |
| MeshCache.CoherentKept | cuberef_client/src/net_client/client_context.rs:344-389 | each step does |
| MeshCache.MeshesAreFresh | cuberef_client/src/net_client/client_context.rs:344-536 | however chunks, deltas, unsubscribes and the worker interleave, the mesh of each chunk that is not queued or in the batch is the mesh of the map as it is exactly if no unsubscribe uncovered one of its sides since it was last meshed |
| ClientContext.InboundContext.HandleMapChunk | cuberef_client/src/game_state/mod.rs:133-149 | stores the chunk, keeps the old mesh until the worker comes, queues it and its neighbors; a chunk of the wrong size changes nothing |
| ClientContext.InboundContext.HandleUnsubscribe | cuberef_client/src/net_client/client_context.rs:424-446 | removes chunks, meshes and queue entries, and complains exactly if a coordinate was not there or came twice |
| ClientContext.InboundContext.HandleMapDelta | cuberef_client/src/net_client/client_context.rs:448-536 | each block of a chunk that is there ends with the id of the last update about it and all others as before; complains once for each update of a missing chunk, meshes what they touched |
| ClientContext.InboundContext.RunMeshWorkerOnce | cuberef_client/src/net_client/mesh_worker.rs:19-68 | takes the whole queue and meshes each chunk that is there |
| FaceBuffers.BuffersDiffer | cuberef_client/src/cube_renderer.rs:727-793 | different lists of faces give different vertex buffers |
| FaceBuffers.HasFacesExactly | cuberef_client/src/cube_renderer.rs:727-793 | four vertices in a row are those of a face exactly if the buffers were made with it |
| Uncovering.MeshChangesExactly | cuberef_client/src/cube_renderer.rs:220-327 | when chunks go, a remaining chunk's mesh changes exactly if a side of one of its blocks was hidden by a block that goes |
| MeshUnsubscribe.UnsubscribeKeepsExactly | cuberef_client/src/net_client/client_context.rs:424-446 | an unsubscribe keeps the meshes right exactly if it uncovers no side in a remaining chunk that is not queued anyway |
| MeshUnsubscribe.UnsubscribeLeavesHole | cuberef_client/src/net_client/client_context.rs:424-446 | with two touching solid chunks it does not |
| Furnace.FurnaceTimer.Tick | cuberef_game_api/src/default_game/furnace.rs:71-202 | one call of the timer does what the specification of a tick says, the recipe it unwraps is there, and it returns whether it asks for the furnace to be saved |
| Furnace.FurnaceTimer.BurnFlame | cuberef_game_api/src/default_game/furnace.rs:112-139 | the flame's part |
| Furnace.FurnaceTimer.Finish | cuberef_game_api/src/default_game/furnace.rs:163-195 | the end of a smelt |
| Furnace.FurnaceTimer.ShutDownFurnace | cuberef_game_api/src/default_game/furnace.rs:206-224 | turns the furnace off and drops the progress |
| FurnaceLedger.BurnedExact | cuberef_game_api/src/default_game/furnace.rs:112-139 | the flame's part uses up one tick of flame, or one piece of fuel for what the fuel gives, or nothing; the furnace shuts down and drops its progress exactly if it has no flame and nothing to burn or nothing to smelt; how it looks then |
| FurnaceLedger.FinishedExact | cuberef_game_api/src/default_game/furnace.rs:163-195 | a finished smelt adds exactly the result if there is room, takes one input if it stacks, and starts over; without room the progress stays |
| FurnaceLedger.TickExact | cuberef_game_api/src/default_game/furnace.rs:71-202 | a whole tick: the flame, the block, the three slots item by item, what is smelted, and the progress, which is zero with another input and after a shutdown, one more in each tick that begins with a flame and does not end the smelt, and unchanged otherwise; when fuel is lit and when a smelt ends |
| FurnaceLedger.TickBalances | cuberef_game_api/src/default_game/furnace.rs:71-202 | every tick keeps the books balanced |
| FurnaceLedger.FurnaceBalances | cuberef_game_api/src/default_game/furnace.rs:71-202 | over every run, with arbitrary changes of the slots between ticks: burning ticks plus flame left equal the flame bought, the time of finished recipes plus progress is at most the burning ticks, inputs consumed equal results exactly if no input failed to stack, and what is smelted has its recipe and its time |
| FurnaceLedger.UnstackableInputIsFree | cuberef_game_api/src/default_game/furnace.rs:177-181 | an input that does not stack is smelted without being used up |
| FurnaceProgress.SmeltGoesOn | cuberef_game_api/src/default_game/furnace.rs:158-163 | over any number of ticks, with the flame going out and being lit again in between, the progress is the number of ticks that began with a flame, and the slots are as they were, as long as it is below what the recipe takes |
| FurnaceProgress.SmeltEnds | cuberef_game_api/src/default_game/furnace.rs:158-195 | with the tick that makes it as many as the recipe takes, the result is in the output and one item gone from an input that stacks, if the output has room, and otherwise neither |
| FurnaceProgress.SmeltOnOneFlame | cuberef_game_api/src/default_game/furnace.rs:71-202 | a lit furnace that starts a recipe of n ticks with a flame for n ticks and room in the output has the result there after n ticks, and not before |
| FurnaceProgress.UnsavedExactly | cuberef_game_api/src/default_game/furnace.rs:147-201 | a tick that changes the furnace asks for it to be saved, or changes the block id, unless the flame burns with nothing to smelt or smelting stops: with another item that has no recipe, or with the last item just smelted; the exact condition on the state before the tick, both ways |
| BlockRegistry.BlockTypeManager.RegisterBlock | cuberef_server/src/game_state/blocks.rs:415-454 | fills the place reserved for the name or makes a new one, so that a lookup of the name gives the id returned and other lookups are as before, or fails and changes nothing |
| BlockRegistry.BlockTypeManager.Save | cuberef_server/src/game_state/blocks.rs:505-516 | the loop collects the blocks that are not placeholders |
| BlockRegistry.BlockTypeManager.Load | cuberef_server/src/game_state/blocks.rs:456-503 | the loops make placeholders up to the largest saved index and assign the saved names |
| BlockRegistry.BlockTypeManager.ResolveName | cuberef_server/src/game_state/blocks.rs:569-592 | a resolved name gives what a lookup gives, and keeps a valid cache |
| BlockRegistry.LookupAfterRegister | cuberef_server/src/game_state/blocks.rs:415-454 | after a registration its name is found with the id that was returned, which a placeholder keeps, and every other name as before |
| BlockRegistry.RegisterKeeps | cuberef_server/src/game_state/blocks.rs:415-454 | a registered name has an id of its own, its index shifted by 12 bits; earlier ids do not change; a name can be registered once; only 2 to the 20 fit |
| BlockRegistry.KeptIdsStay | cuberef_server/src/game_state/blocks.rs:569-592 | a cached id stays the id of its name while others register |
| IdStability.SavedExactly | cuberef_server/src/game_state/blocks.rs:505-516 | what is saved is exactly the registered names with their ids |
| IdStability.LoadedExactly | cuberef_server/src/game_state/blocks.rs:456-503 | loading reserves each saved name its saved id, keeps names and ids one to one, and registers nothing |
| IdStability.IdsSurviveRestart | cuberef_server/src/game_state/blocks.rs:415-516 | after saving and loading, whatever registers in whatever order, a saved name gets the id it had and any other name gets an id that no saved name had |
| IdStability.ForgottenIdIsReused | cuberef_server/src/game_state/blocks.rs:505-516 | a name not registered again in one run loses its id to the first new name in the run after, if it had the last id and the one before was registered |
| IdStability.ReusedExactly | cuberef_server/src/game_state/blocks.rs:415-516 | for every registry, every name not registered again and every order of registrations in the run after: a new name gets the lost id exactly if its place follows the last saved one by the number of new names before; a name known from the load gets it exactly if it is the placeholder's of a place within the saved ones, and no saved name |
| IdStability.ReusedIfBehindSaved | cuberef_server/src/game_state/blocks.rs:415-516 | if the lost place is behind all saved ones, as many new names as it takes do get there |
| IdStability.PlaceholdersDiffer | cuberef_server/src/game_state/blocks.rs:475-489 | different places have different placeholder names |

## Left out

- Errors of the database itself on writing, and panics of handlers and generators; failed loads, serializers and deserializers are modelled.
- The moment between a request to shut down, or an error of the writeback thread, and the end of that thread: the source refuses requests for writebacks from the first, the model from the second.
- The flush request to the writeback thread, coalescing by time, and access times in `MapProtocol`; the model lets the thread receive and deduplicate at any moment.
- `GameMap.ServerGameMap` holds chunks as values; the update of a chunk's arrays in place is `MapChunks.MapChunk`. Block ids are taken to be registered.
- Block update broadcasts and timers, except that a timer's edits of several blocks under one mutex are runs of the protocol.
- Deadlocks other than the one in `MapJam`, condition variable wake-ups, and the write-back of players.
- Virtual output views and popup callbacks, whose code is arbitrary; concurrent access to inventories, which the source serializes.
- InventoryViews.PutConserves: an error loses the stack, as in the source, where it is dropped with the error.
- Stacks with wear, and item metadata other than name, quantity, limit and stackability.
- Replication of block contents as a whole: since updates are dropped, the client's blocks need not be the server's; membership of the cache, what each batch sends and what the client makes of it are proved.
- Replication.NoBugcheckEver: the client's cache is a set of coordinates; `Connection` ties the two classes to it. An error while sending ends the connection and is not a step.
- Pacing by AIMD, teleports, inventory messages and popups.
- AckProtocol.AcksMatch: numbers do not wrap around at 64 bits, and a send that fails after its number was noted is not a step.
- Meshing one chunk, and the removal of the chunks of one unsubscribe, are one step each; races inside a meshing step are not modelled.
- The texture atlas, lighting, draw calls and the geometry of anything but full cubes.
- MeshCache.MeshesAreFresh: assumes chunks in bounds, as the server sends them.
- Saving a furnace whose ticks ask for nothing: which these are is proved, but not run together with the map. Furnaces without their three inventories do nothing. Counters are unbounded; `total_flame` is never written by the source.
- FurnaceLedger.FurnaceBalances: the recipe book is fixed, no recipe asks for an empty slot and no item has an empty name; a recipe takes one item, as in the source.
- Handlers of blocks, handles tied to a manager, and variants, except that registered ids have none.
- IdStability.IdsSurviveRestart: names not registered again before the next save lose their ids; `IdStability.ForgottenIdIsReused` shows what follows.
- Re-encoding of decoded database keys, which is not the identity on non-canonical varints.
- Client physics, raycasting, input, rendering, accounts, media and transport.
