/** The client's handling of map messages, and its mesh worker (cuberef_client/src/net_client/client_context.rs,
    cuberef_client/src/net_client/mesh_worker.rs, cuberef_client/src/game_state/chunk.rs). */
module ClientContext {
  import opened Wrappers
  import opened Coordinates
  import opened MapChunks
  import opened CubeFaces
  import opened Meshing
  import opened MeshLocality
  import opened MeshCache
  import opened Subscriptions
  import opened Replication

  class InboundContext {
    const renderer: BlockRenderer
    var chunks: ChunkMap
    var meshes: map<ChunkCoordinate, Option<Mesh>>
    var queue: set<ChunkCoordinate>
    var bugchecks: nat
    ghost var batch: seq<ChunkCoordinate>
    ghost var uncovered: set<ChunkCoordinate>

    ghost function Value(): Cache
      reads this
    {
      Cache(chunks, meshes, queue, batch, uncovered)
    }

    constructor (renderer: BlockRenderer)
      ensures Value() == EMPTY && bugchecks == 0 && this.renderer == renderer
    {
      this.renderer := renderer;
      chunks, meshes, queue, bugchecks, batch, uncovered := map[], map[], {}, 0, [], {};
    }

    /** A chunk with the wrong number of blocks is an error; it leaves everything as it was. */
    method HandleMapChunk(c: ChunkCoordinate, ids: seq<BlockId>) returns (ok: bool)
      modifies this`chunks, this`meshes, this`queue
      ensures ok <==> |ids| == CHUNK_VOLUME
      ensures Value() == if ok then AfterMapChunk(old(Value()), c, ids) else old(Value())
      ensures ok ==> chunks.Keys == Received(old(chunks.Keys), FullChunk(c, ids))
      ensures ok ==> chunks == old(chunks)[c := ids] && c in queue && old(queue) <= queue
      ensures ok ==> meshes == if c in old(chunks) then old(meshes) else old(meshes)[c := None]
    {
      ok := |ids| == CHUNK_VOLUME;
      if ok {
        if c !in chunks {
          meshes := meshes[c := None];
        }
        chunks := chunks[c := ids];
        EnqueueAround(c);
      }
    }

    method EnqueueAround(c: ChunkCoordinate)
      modifies this`queue
      ensures queue == old(queue) + Around(c)
    {
      hide NextChunk;
      queue := queue + {c};
      for k := 0 to 6
        invariant queue == old(queue) + {c} + NextChunks(c, k)
      {
        var neighbor := NextChunk(c, SIDES[k]);
        if neighbor.Some? {
          queue := queue + {neighbor.value};
        }
      }
      AllNextChunks(c);
      assert queue == old(queue) + Around(c);
    }

    /** Removes the chunks one by one; complains once if one of them was not there. */
    method HandleUnsubscribe(coords: seq<ChunkCoordinate>)
      requires MeshCache.Valid(Value())
      modifies this`chunks, this`meshes, this`queue, this`bugchecks, this`uncovered
      ensures Value() == AfterUnsubscribe(renderer.defs, old(Value()), Elements(coords))
      ensures chunks.Keys == Received(old(chunks.Keys), Message.Unsubscribe(coords))
      ensures bugchecks == old(bugchecks) + if Accepts(old(chunks.Keys), Message.Unsubscribe(coords)) then 0 else 1
      ensures chunks == old(chunks) - Elements(coords) && meshes == old(meshes) - Elements(coords)
      ensures queue == old(queue) - Elements(coords)
    {
      hide UncoveredBy, InBounds;
      var anyBad := false;
      NothingGone(Value());
      for k := 0 to |coords|
        invariant (chunks, meshes, queue) == Without(old(Value()), Elements(coords[..k]))
        invariant bugchecks == old(bugchecks) && uncovered == old(uncovered)
        invariant anyBad <==> !(Elements(coords[..k]) <= old(chunks.Keys) && Distinct(coords[..k]))
      {
        OneMoreGone(old(Value()), coords, k);
        if coords[k] !in chunks {
          anyBad := true;
        }
        chunks := chunks - {coords[k]};
        meshes := meshes - {coords[k]};
        queue := queue - {coords[k]};
      }
      assert coords[..|coords|] == coords;
      uncovered := AfterUnsubscribe(renderer.defs, old(Value()), Elements(coords)).uncovered;
      if anyBad {
        bugchecks := bugchecks + 1;
      }
    }

    /** Applies the updates, complains of each that is about a missing chunk, and meshes what they touched. */
    method HandleMapDelta(updates: seq<BlockUpdate>)
      requires MeshCache.Valid(Value())
      modifies this`chunks, this`meshes, this`bugchecks, this`uncovered
      ensures Value() == AfterDelta(renderer.defs, old(Value()), updates)
      ensures chunks.Keys == Received(old(chunks.Keys), MapDelta(updates))
      ensures bugchecks == old(bugchecks) + UnknownCount(old(chunks.Keys), updates)
      ensures bugchecks == old(bugchecks) <==> Accepts(old(chunks.Keys), MapDelta(updates))
      ensures chunks.Keys == old(chunks).Keys
      ensures forall at, k: nat :: ChunkOf(at) in chunks && LastAbout(updates, at, k) ==>
                IdAt(chunks, at) == updates[k].newId
      ensures forall at :: ChunkOf(at) in chunks && (forall j :: 0 <= j < |updates| ==> updates[j].location != at) ==>
                IdAt(chunks, at) == IdAt(old(chunks), at)
    {
      forall at: BlockCoordinate, k: nat | ChunkOf(at) in chunks
        ensures var after := ApplyDeltas(chunks, updates);
          && after.Keys == chunks.Keys
          && (LastAbout(updates, at, k) ==> IdAt(after, at) == updates[k].newId)
          && ((forall j :: 0 <= j < |updates| ==> updates[j].location != at) ==> IdAt(after, at) == IdAt(chunks, at))
      {
        DeltasExactly(chunks, updates, at, k);
      }
      hide Changes, RemeshFor, ApplyDelta, ChunkOf, IndexOf, MeshOf, InBounds;
      var needsRemesh := {};
      for k := 0 to |updates|
        invariant chunks.Keys == old(chunks.Keys) && meshes == old(meshes) && queue == old(queue) && batch == old(batch)
        invariant uncovered == old(uncovered)
        invariant ApplyDeltas(old(chunks), updates) == ApplyDeltas(chunks, updates[k..])
        invariant NeedsRemesh(old(chunks), updates) == needsRemesh + NeedsRemesh(chunks, updates[k..])
        invariant bugchecks + UnknownCount(chunks.Keys, updates[k..])
               == old(bugchecks) + UnknownCount(chunks.Keys, updates)
      {
        assert updates[k..][0] == updates[k] && updates[k..][1..] == updates[k + 1..];
        var u := updates[k];
        DeltaKeepsKeys(chunks, u);
        if ChunkOf(u.location) !in chunks {
          bugchecks := bugchecks + 1;
        }
        if Changes(chunks, u) {
          var touched := BlocksAround(u.location);
          needsRemesh := needsRemesh + touched;
        }
        chunks := ApplyDelta(chunks, u);
      }
      assert updates[|updates|..] == [];
      assert needsRemesh == NeedsRemesh(old(chunks), updates);
      UnknownExactly(chunks.Keys, updates);
      RemeshAll(needsRemesh);
    }

    /** The chunks of a block and of the blocks next to it. */
    method BlocksAround(b: BlockCoordinate) returns (r: set<ChunkCoordinate>)
      ensures r == RemeshFor(b)
    {
      hide NextTo, ChunkOf;
      r := {ChunkOf(b)};
      for k := 0 to 6
        invariant r == {ChunkOf(b)} + NextBlocks(b, k)
      {
        var neighbor := NextTo(b, SIDES[k]);
        if neighbor.Some? && ChunkOf(neighbor.value) != ChunkOf(b) {
          r := r + {ChunkOf(neighbor.value)};
        }
      }
      AllNextBlocks(b);
    }

    /** Meshes the given chunks, as far as they are there, in any order. */
    method RemeshAll(which: set<ChunkCoordinate>)
      requires MeshCache.Valid(Value())
      modifies this`meshes, this`uncovered
      ensures Value() == Remeshed(renderer.defs, old(Value()), which)
    {
      hide MeshOf, InBounds;
      var rest := which;
      while rest != {}
        invariant rest <= which && MeshCache.Valid(Value())
        invariant meshes == Remeshed(renderer.defs, old(Value()), which - rest).meshes
        invariant uncovered == old(uncovered) - (which - rest)
        decreases |rest|
      {
        var c :| c in rest;
        MaybeMeshChunk(c);
        rest := rest - {c};
      }
      assert which - rest == which;
    }

    method MaybeMeshChunk(c: ChunkCoordinate)
      requires MeshCache.Valid(Value())
      modifies this`meshes, this`uncovered
      ensures Value() == Remeshed(renderer.defs, old(Value()), {c})
    {
      hide MeshOf;
      if c in chunks {
        var mesh := renderer.MeshChunk(chunks, c);
        meshes := meshes[c := Some(mesh)];
      }
      uncovered := uncovered - {c};
      assert meshes == Remeshed(renderer.defs, old(Value()), {c}).meshes;
    }

    /** One round of the mesh worker: it takes the whole queue, in some order, and meshes one chunk after the other. */
    method RunMeshWorkerOnce(order: seq<ChunkCoordinate>)
      requires MeshCache.Valid(Value()) && batch == [] && Lists(order, queue)
      modifies this`queue, this`batch, this`meshes, this`uncovered
      ensures batch == [] && queue == {} && chunks == old(chunks)
      ensures Value() == Remeshed(renderer.defs, old(Value()).(queue := {}), Elements(order))
    {
      hide MeshOf, InBounds, Lists;
      queue := {};
      batch := order;
      for k := 0 to |order|
        invariant MeshCache.Valid(Value()) && chunks == old(chunks) && queue == {} && batch == order[k..]
        invariant meshes == Remeshed(renderer.defs, old(Value()), Elements(order[..k])).meshes
        invariant uncovered == old(uncovered) - Elements(order[..k])
      {
        MaybeMeshChunk(order[k]);
        batch := batch[1..];
        assert Elements(order[..k + 1]) == Elements(order[..k]) + {order[k]};
      }
      assert order[..|order|] == order;
    }
  }

  // ----- helpers of the loops --------------------------------------------------------------------------------------

  function NextChunks(c: ChunkCoordinate, k: nat): set<ChunkCoordinate>
    requires k <= 6
  {
    set j | 0 <= j < k && NextChunk(c, SIDES[j]).Some? :: NextChunk(c, SIDES[j]).value
  }

  lemma SideIsListed(s: Side)
    ensures SideNumber(s) < 6 && SIDES[SideNumber(s)] == s
  {
  }

  lemma AllNextChunks(c: ChunkCoordinate)
    ensures {c} + NextChunks(c, 6) == Around(c)
  {
    hide NextChunk;
    forall d | d in Around(c) ensures d in {c} + NextChunks(c, 6) {
      if d != c {
        var s: Side :| NextChunk(c, s).Some? && NextChunk(c, s).value == d;
        SideIsListed(s);
      }
    }
  }

  function NextBlocks(b: BlockCoordinate, k: nat): set<ChunkCoordinate>
    requires k <= 6
  {
    set j | 0 <= j < k && NextTo(b, SIDES[j]).Some? :: ChunkOf(NextTo(b, SIDES[j]).value)
  }

  lemma AllNextBlocks(b: BlockCoordinate)
    ensures {ChunkOf(b)} + NextBlocks(b, 6) == RemeshFor(b)
  {
    hide NextTo, ChunkOf;
    forall d | d in RemeshFor(b) ensures d in {ChunkOf(b)} + NextBlocks(b, 6) {
      if d != ChunkOf(b) {
        var s: Side :| NextTo(b, s).Some? && ChunkOf(NextTo(b, s).value) == d;
        SideIsListed(s);
      }
    }
  }

  /** Chunks, meshes and queue without some chunks. */
  function Without(k: Cache, gone: set<ChunkCoordinate>)
    : (ChunkMap, map<ChunkCoordinate, Option<Mesh>>, set<ChunkCoordinate>)
  {
    (k.chunks - gone, k.meshes - gone, k.queue - gone)
  }

  lemma NothingGone(k: Cache)
    ensures forall s: seq<ChunkCoordinate> :: Elements(s[..0]) == {}
    ensures Without(k, {}) == (k.chunks, k.meshes, k.queue)
  {
    assert k.chunks - {} == k.chunks && k.meshes - {} == k.meshes && k.queue - {} == k.queue;
  }

  lemma OneMoreGone(k: Cache, coords: seq<ChunkCoordinate>, n: nat)
    requires n < |coords|
    ensures Elements(coords[..n + 1]) == Elements(coords[..n]) + {coords[n]}
    ensures Distinct(coords[..n + 1]) <==> Distinct(coords[..n]) && coords[n] !in Elements(coords[..n])
    ensures var (chunks, meshes, queue) := Without(k, Elements(coords[..n]));
      Without(k, Elements(coords[..n + 1])) == (chunks - {coords[n]}, meshes - {coords[n]}, queue - {coords[n]})
  {
    var some, more := coords[..n], coords[..n + 1];
    assert more == some + [coords[n]];
    assert Elements(more) == Elements(some) + {coords[n]};
    if Distinct(more) {
      assert forall i :: 0 <= i < n ==> more[i] == some[i];
    }
    assert k.chunks - Elements(some) - {coords[n]} == k.chunks - Elements(more);
    assert k.meshes - Elements(some) - {coords[n]} == k.meshes - Elements(more);
    assert k.queue - Elements(some) - {coords[n]} == k.queue - Elements(more);
  }

  /** How many updates are about chunks that the client lacks. */
  function UnknownCount(have: set<ChunkCoordinate>, updates: seq<BlockUpdate>): nat {
    if updates == [] then 0
    else (if ChunkOf(updates[0].location) in have then 0 else 1) + UnknownCount(have, updates[1..])
  }

  lemma {:induction false} UnknownExactly(have: set<ChunkCoordinate>, updates: seq<BlockUpdate>)
    ensures UnknownCount(have, updates) == 0 <==> ChunksOf(updates) <= have
  {
    hide ChunkOf;
    if updates != [] {
      UnknownExactly(have, updates[1..]);
      assert updates == [updates[0]] + updates[1..];
      assert ChunksOf(updates) == {ChunkOf(updates[0].location)} + ChunksOf(updates[1..]);
    }
  }

  lemma DeltaKeepsKeys(chunks: ChunkMap, u: BlockUpdate)
    ensures ApplyDelta(chunks, u).Keys == chunks.Keys
  {
  }
}
