/** The client's chunks with their cached meshes, and the worker that keeps the meshes up to date
    (cuberef_client/src/net_client/client_context.rs, cuberef_client/src/net_client/mesh_worker.rs,
    cuberef_client/src/game_state). */
module MeshCache {
  import opened Wrappers
  import opened Coordinates
  import opened Meshing
  import opened MeshLocality
  import opened Uncovering
  import opened Subscriptions

  datatype Cache = Cache(
    chunks: ChunkMap,
    meshes: map<ChunkCoordinate, Option<Mesh>>,
    queue: set<ChunkCoordinate>,
    batch: seq<ChunkCoordinate>,              // what the worker took off the queue and has not meshed yet
    uncovered: set<ChunkCoordinate>)          // chunks with a side uncovered since they were last meshed

  predicate Valid(k: Cache) { k.meshes.Keys == k.chunks.Keys && forall c :: c in k.chunks ==> InBounds(c) }

  // ----- what the messages and the worker do -----------------------------------------------------------------------

  function AfterMapChunk(k: Cache, c: ChunkCoordinate, ids: BlockIds): Cache {
    k.(chunks := k.chunks[c := ids],
       meshes := if c in k.chunks then k.meshes else k.meshes[c := None],
       queue := k.queue + Around(c))
  }

  /** The remaining chunks that show a side that was hidden by a chunk that goes. */
  ghost function UncoveredBy(defs: BlockDefs, k: Cache, gone: set<ChunkCoordinate>): set<ChunkCoordinate>
    requires Valid(k)
  {
    set c | c in k.chunks && c !in gone && Uncovers(defs, k.chunks, gone, c)
  }

  ghost function AfterUnsubscribe(defs: BlockDefs, k: Cache, gone: set<ChunkCoordinate>): (k': Cache)
    requires Valid(k)
    ensures Valid(k')
  {
    assert (k.meshes - gone).Keys == k.meshes.Keys - gone && (k.chunks - gone).Keys == k.chunks.Keys - gone;
    k.(chunks := k.chunks - gone, meshes := k.meshes - gone, queue := k.queue - gone,
       uncovered := k.uncovered - gone + UncoveredBy(defs, k, gone))
  }

  /** Whether an update changes a block that the client has. */
  predicate Changes(chunks: ChunkMap, u: BlockUpdate) {
    var c := ChunkOf(u.location);
    c in chunks && chunks[c][IndexOf(u.location)] != u.newId
  }

  function ApplyDelta(chunks: ChunkMap, u: BlockUpdate): ChunkMap {
    var c := ChunkOf(u.location);
    if Changes(chunks, u) then chunks[c := chunks[c][IndexOf(u.location) := u.newId]] else chunks
  }

  function ApplyDeltas(chunks: ChunkMap, updates: seq<BlockUpdate>): ChunkMap
    decreases |updates|
  {
    if updates == [] then chunks else ApplyDeltas(ApplyDelta(chunks, updates[0]), updates[1..])
  }

  /** The chunks near the blocks that the updates change. */
  function NeedsRemesh(chunks: ChunkMap, updates: seq<BlockUpdate>): set<ChunkCoordinate>
    decreases |updates|
  {
    if updates == [] then {}
    else
      (if Changes(chunks, updates[0]) then RemeshFor(updates[0].location) else {})
      + NeedsRemesh(ApplyDelta(chunks, updates[0]), updates[1..])
  }

  function Remeshed(defs: BlockDefs, k: Cache, which: set<ChunkCoordinate>): Cache
    requires Valid(k)
  {
    k.(meshes := map c | c in k.meshes :: if c in which then Some(MeshOf(defs, k.chunks, c)) else k.meshes[c],
       uncovered := k.uncovered - which)
  }

  function AfterDelta(defs: BlockDefs, k: Cache, updates: seq<BlockUpdate>): Cache
    requires Valid(k)
  {
    DeltasKeepChunks(k.chunks, updates);
    Remeshed(defs, k.(chunks := ApplyDeltas(k.chunks, updates)), NeedsRemesh(k.chunks, updates))
  }

  lemma {:induction false} DeltasKeepChunks(chunks: ChunkMap, updates: seq<BlockUpdate>)
    ensures ApplyDeltas(chunks, updates).Keys == chunks.Keys
    decreases |updates|
  {
    if updates != [] {
      DeltasKeepChunks(ApplyDelta(chunks, updates[0]), updates[1..]);
      assert ApplyDelta(chunks, updates[0]).Keys == chunks.Keys;
    }
  }

  /** The block id that a client's map has; it must have the chunk. */
  function IdAt(chunks: ChunkMap, at: BlockCoordinate): u32
    requires ChunkOf(at) in chunks
  {
    chunks[ChunkOf(at)][IndexOf(at)]
  }

  /** The last update about a block is the `k`-th. */
  predicate LastAbout(updates: seq<BlockUpdate>, at: BlockCoordinate, k: nat) {
    k < |updates| && updates[k].location == at && forall j :: k < j < |updates| ==> updates[j].location != at
  }

  /** A batch of updates gives each block of the client's chunks the id of the last update about it, and leaves the
      others. */
  lemma {:induction false} DeltasExactly(chunks: ChunkMap, updates: seq<BlockUpdate>, at: BlockCoordinate, k: nat)
    requires ChunkOf(at) in chunks
    ensures var after := ApplyDeltas(chunks, updates);
      && after.Keys == chunks.Keys
      && (LastAbout(updates, at, k) ==> IdAt(after, at) == updates[k].newId)
      && ((forall j :: 0 <= j < |updates| ==> updates[j].location != at) ==> IdAt(after, at) == IdAt(chunks, at))
    decreases |updates|
  {
    hide ChunkOf, IndexOf;
    DeltasKeepChunks(chunks, updates);
    if updates != [] {
      var next := ApplyDelta(chunks, updates[0]);
      DeltasExactly(next, updates[1..], at, if k == 0 then 0 else k - 1);
      if updates[0].location == at {
        assert IdAt(next, at) == updates[0].newId;
      } else if ChunkOf(at) == ChunkOf(updates[0].location) && IndexOf(at) == IndexOf(updates[0].location) {
        StorageInjective(at, updates[0].location);
      }
      if LastAbout(updates, at, k) && k > 0 {
        assert LastAbout(updates[1..], at, k - 1);
      }
    }
  }

  /** The worker takes all that is queued. */
  function AfterTake(k: Cache, order: seq<ChunkCoordinate>): Cache { k.(queue := {}, batch := order) }

  function AfterMeshNext(defs: BlockDefs, k: Cache): Cache
    requires Valid(k) && k.batch != []
  {
    Remeshed(defs, k, {k.batch[0]}).(batch := k.batch[1..])
  }

  // ----- coherence -------------------------------------------------------------------------------------------------

  /** A chunk's cached mesh is the mesh of the map as it is, or the chunk waits to be meshed. */
  predicate Fresh(defs: BlockDefs, k: Cache, c: ChunkCoordinate)
    requires Valid(k)
  {
    c in k.chunks ==> c in k.queue || c in k.batch || k.meshes[c] == Some(MeshOf(defs, k.chunks, c))
  }

  ghost predicate AllFresh(defs: BlockDefs, k: Cache) { Valid(k) && forall c: ChunkCoordinate :: Fresh(defs, k, c) }

  /** The cached mesh is that of another map, and the map as it is shows a face that the other does not. */
  ghost predicate Stale(defs: BlockDefs, k: Cache, c: ChunkCoordinate)
    requires Valid(k) && c in k.chunks
  {
    exists before: ChunkMap ::
      k.meshes[c] == Some(MeshOf(defs, before, c)) && ShowsMore(defs, k.chunks, before, c)
  }

  predicate Waits(k: Cache, c: ChunkCoordinate) { c in k.queue || c in k.batch }

  /** A chunk that does not wait has a fresh mesh, or a stale one if an unsubscribe uncovered one of its sides. */
  ghost predicate ChunkCoherent(defs: BlockDefs, k: Cache, c: ChunkCoordinate)
    requires Valid(k)
  {
    c in k.chunks && !Waits(k, c) ==>
      if c in k.uncovered then Stale(defs, k, c) else k.meshes[c] == Some(MeshOf(defs, k.chunks, c))
  }

  ghost predicate Coherent(defs: BlockDefs, k: Cache) {
    Valid(k) && forall c: ChunkCoordinate :: ChunkCoherent(defs, k, c)
  }

  /** A stale mesh is not the mesh of the map as it is. */
  lemma StaleIsWrong(defs: BlockDefs, k: Cache, c: ChunkCoordinate)
    requires Valid(k) && c in k.chunks && Stale(defs, k, c)
    ensures k.meshes[c] != Some(MeshOf(defs, k.chunks, c))
  {
    hide MeshOf, ShowsMore, InBounds;
    var before: ChunkMap :|
      k.meshes[c] == Some(MeshOf(defs, before, c)) && ShowsMore(defs, k.chunks, before, c);
    ShowsMoreDiffers(defs, k.chunks, before, c);
  }

  /** What does not touch a chunk's mesh, nor what its mesh should be, leaves it as coherent as it was. */
  lemma CoherentIfSame(defs: BlockDefs, k: Cache, k': Cache, c: ChunkCoordinate)
    requires Valid(k) && Valid(k') && ChunkCoherent(defs, k, c) && c in k.chunks && c in k'.chunks
    requires k'.meshes[c] == k.meshes[c] && MeshOf(defs, k'.chunks, c) == MeshOf(defs, k.chunks, c)
    requires (c in k'.uncovered <==> c in k.uncovered) && (Waits(k, c) ==> Waits(k', c))
    ensures ChunkCoherent(defs, k', c)
  {
    hide MeshOf, ShowsMore, InBounds;
    if !Waits(k', c) && c in k.uncovered {
      var before: ChunkMap :|
        k.meshes[c] == Some(MeshOf(defs, before, c)) && ShowsMore(defs, k.chunks, before, c);
      ShowsMoreStays(defs, k'.chunks, k.chunks, before, c);
    }
  }

  lemma MapChunkKeeps(defs: BlockDefs, k: Cache, d: ChunkCoordinate, ids: BlockIds)
    requires Coherent(defs, k) && InBounds(d)
    ensures Coherent(defs, AfterMapChunk(k, d, ids))
  {
    hide InBounds, MeshOf, Around, NextChunk, Stale;
    AroundSelf(d);
    var k' := AfterMapChunk(k, d, ids);
    forall c: ChunkCoordinate ensures ChunkCoherent(defs, k', c) {
      assert ChunkCoherent(defs, k, c);
      if c in k'.chunks && c !in Around(d) {
        ChunkShowsAround(defs, k.chunks, k'.chunks, d, c);
        CoherentIfSame(defs, k, k', c);
      }
    }
  }

  lemma AroundSelf(c: ChunkCoordinate)
    ensures c in Around(c)
  {
  }

  lemma {:induction false} DeltasShowInRemeshed(
    defs: BlockDefs, chunks: ChunkMap, updates: seq<BlockUpdate>, c: ChunkCoordinate)
    requires InBounds(c) && c !in NeedsRemesh(chunks, updates)
    ensures MeshOf(defs, ApplyDeltas(chunks, updates), c) == MeshOf(defs, chunks, c)
    decreases |updates|
  {
    hide InBounds, MeshOf, RemeshFor;
    if updates != [] {
      var next := ApplyDelta(chunks, updates[0]);
      DeltasShowInRemeshed(defs, next, updates[1..], c);
      if Changes(chunks, updates[0]) {
        DeltaIsLocal(chunks, updates[0]);
        BlocksShowNearby(defs, chunks, next, {updates[0].location}, c);
      }
    }
  }

  lemma DeltaIsLocal(chunks: ChunkMap, u: BlockUpdate)
    ensures SameButBlocks(chunks, ApplyDelta(chunks, u), {u.location})
  {
    hide ChunkOf, IndexOf;
    forall at: BlockCoordinate | ChunkOf(at) in chunks && at != u.location
      ensures chunks[ChunkOf(at)][IndexOf(at)] == ApplyDelta(chunks, u)[ChunkOf(at)][IndexOf(at)]
    {
      if ChunkOf(at) == ChunkOf(u.location) && IndexOf(at) == IndexOf(u.location) {
        StorageInjective(at, u.location);
      }
    }
  }

  lemma DeltaKeeps(defs: BlockDefs, k: Cache, updates: seq<BlockUpdate>)
    requires Coherent(defs, k)
    ensures Coherent(defs, AfterDelta(defs, k, updates))
  {
    hide InBounds, MeshOf, ApplyDeltas, NeedsRemesh, Stale;
    var k' := AfterDelta(defs, k, updates);
    DeltasKeepChunks(k.chunks, updates);
    assert k'.meshes.Keys == k.meshes.Keys;
    forall c: ChunkCoordinate ensures ChunkCoherent(defs, k', c) {
      assert ChunkCoherent(defs, k, c);
      if c in k.chunks && c !in NeedsRemesh(k.chunks, updates) {
        DeltasShowInRemeshed(defs, k.chunks, updates, c);
        CoherentIfSame(defs, k, k', c);
      }
    }
  }

  lemma WorkerKeeps(defs: BlockDefs, k: Cache, order: seq<ChunkCoordinate>)
    requires Coherent(defs, k)
    ensures k.batch == [] && Lists(order, k.queue) ==> Coherent(defs, AfterTake(k, order))
    ensures k.batch != [] ==> Coherent(defs, AfterMeshNext(defs, k))
  {
    hide InBounds, MeshOf, Stale;
    if k.batch == [] && Lists(order, k.queue) {
      var k' := AfterTake(k, order);
      forall c: ChunkCoordinate ensures ChunkCoherent(defs, k', c) {
        assert ChunkCoherent(defs, k, c);
        assert c in k.queue <==> c in Elements(order);
        if c in k.chunks { CoherentIfSame(defs, k, k', c); }
      }
    } else if k.batch != [] {
      var k' := AfterMeshNext(defs, k);
      assert k'.meshes.Keys == k.meshes.Keys;
      forall c: ChunkCoordinate ensures ChunkCoherent(defs, k', c) {
        assert ChunkCoherent(defs, k, c);
        assert c in k.batch ==> c == k.batch[0] || c in k.batch[1..];
        if c in k.chunks && c != k.batch[0] { CoherentIfSame(defs, k, k', c); }
      }
    }
  }

  /** A whole round of the worker, with nothing in between. */
  lemma RoundKeeps(defs: BlockDefs, k: Cache, order: seq<ChunkCoordinate>)
    requires Coherent(defs, k) && k.batch == [] && Lists(order, k.queue)
    ensures Coherent(defs, Remeshed(defs, k.(queue := {}), Elements(order)))
  {
    hide InBounds, MeshOf, Stale;
    var k' := Remeshed(defs, k.(queue := {}), Elements(order));
    assert k'.meshes.Keys == k.meshes.Keys;
    forall c: ChunkCoordinate ensures ChunkCoherent(defs, k', c) {
      assert ChunkCoherent(defs, k, c);
      assert c in k.queue <==> c in Elements(order);
      if c in k.chunks && c !in k.queue { CoherentIfSame(defs, k, k', c); }
    }
  }

  lemma UnsubscribeKeeps(defs: BlockDefs, k: Cache, gone: set<ChunkCoordinate>)
    requires Coherent(defs, k)
    ensures Coherent(defs, AfterUnsubscribe(defs, k, gone))
  {
    hide InBounds, MeshOf, Uncovers, Stale;
    var k' := AfterUnsubscribe(defs, k, gone);
    forall c: ChunkCoordinate ensures ChunkCoherent(defs, k', c) {
      assert ChunkCoherent(defs, k, c);
      if c in k'.chunks && !Waits(k', c) {
        if c in k'.uncovered {
          UncoveredIsStale(defs, k, gone, c);
        } else {
          MeshChangesExactly(defs, k.chunks, gone, c);
        }
      }
    }
  }

  /** A chunk that was stale, or that shows more now, is stale. */
  lemma UncoveredIsStale(defs: BlockDefs, k: Cache, gone: set<ChunkCoordinate>, c: ChunkCoordinate)
    requires Valid(k) && ChunkCoherent(defs, k, c) && c in k.chunks && c !in gone && !Waits(k, c)
    requires c in k.uncovered || Uncovers(defs, k.chunks, gone, c)
    ensures Stale(defs, AfterUnsubscribe(defs, k, gone), c)
  {
    hide InBounds, MeshOf, ShowsMore, Uncovers, UncoveredBy;
    var k' := AfterUnsubscribe(defs, k, gone);
    assert k'.meshes[c] == k.meshes[c];
    if c in k.uncovered {
      var before: ChunkMap :|
        k.meshes[c] == Some(MeshOf(defs, before, c)) && ShowsMore(defs, k.chunks, before, c);
      ShowsMoreWithout(defs, k.chunks, gone, before, c);
      assert k'.meshes[c] == Some(MeshOf(defs, before, c)) && ShowsMore(defs, k'.chunks, before, c);
    } else {
      UncoversShows(defs, k.chunks, gone, c);
      assert k'.meshes[c] == Some(MeshOf(defs, k.chunks, c)) && ShowsMore(defs, k'.chunks, k.chunks, c);
    }
  }

  // ----- whole runs ------------------------------------------------------------------------------------------------

  datatype Step =
    | MapChunkArrives(c: ChunkCoordinate, ids: BlockIds)
    | DeltaArrives(updates: seq<BlockUpdate>)
    | UnsubscribeArrives(gone: set<ChunkCoordinate>)
    | WorkerTakes(order: seq<ChunkCoordinate>)
    | WorkerMeshes

  predicate Enabled(k: Cache, step: Step) {
    match step
    case MapChunkArrives(c, _) => InBounds(c)
    case DeltaArrives(_) | UnsubscribeArrives(_) => true
    case WorkerTakes(order) => k.batch == [] && Lists(order, k.queue)
    case WorkerMeshes => k.batch != []
  }

  ghost function Do(defs: BlockDefs, k: Cache, step: Step): Cache
    requires Valid(k) && Enabled(k, step)
  {
    match step
    case MapChunkArrives(c, ids) => AfterMapChunk(k, c, ids)
    case DeltaArrives(updates) => AfterDelta(defs, k, updates)
    case UnsubscribeArrives(gone) => AfterUnsubscribe(defs, k, gone)
    case WorkerTakes(order) => AfterTake(k, order)
    case WorkerMeshes => AfterMeshNext(defs, k)
  }

  lemma CoherentKept(defs: BlockDefs, k: Cache, step: Step)
    requires Coherent(defs, k) && Enabled(k, step)
    ensures Coherent(defs, Do(defs, k, step))
  {
    hide Coherent, Lists, InBounds, AfterMapChunk, AfterDelta, AfterUnsubscribe, AfterTake, AfterMeshNext;
    assert Valid(k) by { CoherentIsValid(defs, k); }
    match step
    case MapChunkArrives(c, ids) => MapChunkKeeps(defs, k, c, ids);
    case DeltaArrives(updates) => DeltaKeeps(defs, k, updates);
    case UnsubscribeArrives(gone) => UnsubscribeKeeps(defs, k, gone);
    case WorkerTakes(order) => WorkerKeeps(defs, k, order);
    case WorkerMeshes => WorkerKeeps(defs, k, []);
  }

  lemma CoherentIsValid(defs: BlockDefs, k: Cache)
    requires Coherent(defs, k)
    ensures Valid(k)
  {
  }

  ghost predicate Runs(defs: BlockDefs, k: Cache, steps: seq<Step>)
    decreases |steps|
  {
    steps == [] || (Valid(k) && Enabled(k, steps[0]) && Runs(defs, Do(defs, k, steps[0]), steps[1..]))
  }

  ghost function AfterRun(defs: BlockDefs, k: Cache, steps: seq<Step>): Cache
    requires Runs(defs, k, steps)
    decreases |steps|
  {
    if steps == [] then k else AfterRun(defs, Do(defs, k, steps[0]), steps[1..])
  }

  const EMPTY: Cache := Cache(map[], map[], {}, [], {})

  lemma {:induction false} CoherentOverRun(defs: BlockDefs, k: Cache, steps: seq<Step>)
    requires Coherent(defs, k) && Runs(defs, k, steps)
    ensures Coherent(defs, AfterRun(defs, k, steps))
    decreases |steps|
  {
    hide Coherent, Enabled, Do;
    if steps != [] {
      CoherentKept(defs, k, steps[0]);
      CoherentOverRun(defs, Do(defs, k, steps[0]), steps[1..]);
    }
  }

  /** However chunks, deltas, unsubscribes and the worker's steps interleave, the mesh of each chunk that does not wait
      to be meshed is the mesh of the map as it is exactly if no unsubscribe uncovered one of its sides since it was
      last meshed. */
  lemma MeshesAreFresh(defs: BlockDefs, steps: seq<Step>, c: ChunkCoordinate)
    requires Runs(defs, EMPTY, steps)
    ensures var k := AfterRun(defs, EMPTY, steps);
      && Valid(k)
      && (c in k.chunks && !Waits(k, c) ==>
            (k.meshes[c] == Some(MeshOf(defs, k.chunks, c)) <==> c !in k.uncovered))
  {
    hide Runs, AfterRun, MeshOf, Stale;
    assert Coherent(defs, EMPTY);
    CoherentOverRun(defs, EMPTY, steps);
    var k := AfterRun(defs, EMPTY, steps);
    assert ChunkCoherent(defs, k, c);
    if c in k.chunks && !Waits(k, c) && c in k.uncovered { StaleIsWrong(defs, k, c); }
  }
}
