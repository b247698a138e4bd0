/** The server's and the client's context at the two ends of one channel
    (cuberef_server/src/network_server/client_context.rs, cuberef_client/src/net_client/client_context.rs). */
module Connection {
  import opened Wrappers
  import opened Coordinates
  import opened ChunkTable
  import opened Meshing
  import opened Subscriptions
  import opened Replication
  import MeshCache
  import ClientContext

  /** Chunks are sent whole, and only chunks of the world. */
  predicate GoodMessage(m: Message) { m.FullChunk? ==> InBounds(m.coord) && |m.ids| == CHUNK_VOLUME }

  predicate GoodMessages(ms: seq<Message>) { forall k :: 0 <= k < |ms| ==> GoodMessage(ms[k]) }

  ghost predicate WholeChunks(ids: MapIds) { forall c :: |ids(c)| == CHUNK_VOLUME }

  class Connected {
    const server: ClientOutboundContext
    const client: ClientContext.InboundContext
    var lagged: bool

    ghost function Value(): System
      reads this, server, client
    {
      System(server.chunksKnownToClient, server.interestedChunks, server.outbound, client.chunks.Keys, client.bugchecks,
             lagged)
    }

    /** In particular, the client never complained, and each of its meshes is right, or waits to be made, or belongs to
        a chunk with a side that an unsubscribe uncovered. */
    ghost predicate Valid()
      reads this, server, client
    {
      && server.Valid() && MeshCache.Coherent(client.renderer.defs, client.Value())
      && GoodMessages(server.outbound)
      && InStep(Value())
    }

    constructor (renderer: BlockRenderer)
      ensures Valid() && fresh(server) && fresh(client) && Value() == START
    {
      server := new ClientOutboundContext();
      client := new ClientContext.InboundContext(renderer);
      lagged := false;
    }

    method Move(center: ChunkCoordinate, chunksToSend: nat, ids: MapIds)
      requires Valid() && InBounds(center) && WholeChunks(ids)
      modifies server
      ensures Valid()
      ensures exists list :: Lists(list, Far(center, old(server.chunksKnownToClient)))
                && Value() == Do(server.table, old(Value()), Step.Move(center, chunksToSend, ids, list))
    {
      hide InStep, Table, Far, Lists, Missing;
      ghost var s := Value();
      var list := server.HandlePositionUpdate(center, chunksToSend, ids);
      ghost var step := Step.Move(center, chunksToSend, ids, list);
      ghost var near := s.known - Far(center, s.known);
      ghost var sent := First(Missing(center, near, server.table, 0), chunksToSend + 1);
      TableIsGood();
      MoveKeeps(server.table, s, step);
      AppendTwice(s.channel, FullChunks(sent, ids), UnsubscribeMessage(list));
      assert Value() == Do(server.table, s, step);
      MissingAreGood(server.table, center, near, chunksToSend + 1, ids);
      GoodAppend(s.channel, FullChunks(sent, ids));
      GoodAppend(s.channel + FullChunks(sent, ids), UnsubscribeMessage(list));
    }

    method Update(events: seq<BlockUpdate>, ids: MapIds) returns (rest: seq<BlockUpdate>)
      requires Valid() && events != [] && WholeChunks(ids)
      modifies server
      ensures Valid() && Value() == Do(server.table, old(Value()), Step.Update(events, ids))
    {
      hide InStep, Table, Batched, Unknown, ChunksOf;
      ghost var s := Value();
      var updates;
      updates, rest := server.HandleBlockUpdate(events, ids);
      UpdateKeeps(server.table, s, Step.Update(events, ids));
      ghost var sent := Unknown(s.known, updates);
      AppendTwice(s.channel, FullChunks(sent, ids), [MapDelta(updates)]);
      assert Value() == Do(server.table, s, Step.Update(events, ids));
      UnknownAreGood(s.known, updates, ids);
      GoodAppend(s.channel, FullChunks(sent, ids));
      GoodAppend(s.channel + FullChunks(sent, ids), [MapDelta(updates)]);
    }

    method Lag()
      requires Valid()
      modifies this, server
      ensures Valid() && Value() == Do(server.table, old(Value()), Step.Lag)
    {
      hide Table, Drained, AllAccepted;
      server.HandleBlockUpdateLagged();
      lagged := true;
    }

    /** The client handles the first message on the way, and has nothing to complain of. */
    method Deliver()
      requires Valid() && server.outbound != []
      modifies server, client
      ensures Valid() && Value() == Do(server.table, old(Value()), Step.Deliver)
      ensures client.bugchecks == old(client.bugchecks)
    {
      hide Table, MeshCache.AfterMapChunk, MeshCache.AfterDelta,
        MeshCache.AfterUnsubscribe, MeshCache.Coherent, InBounds;
      ghost var s, defs, was := Value(), client.renderer.defs, client.Value();
      MeshCache.CoherentIsValid(defs, was);
      var m := server.outbound[0];
      server.outbound := server.outbound[1..];
      assert GoodMessage(m);
      if m.FullChunk? {
        var _ := client.HandleMapChunk(m.coord, m.ids);
        MeshCache.MapChunkKeeps(defs, was, m.coord, m.ids);
      } else if m.MapDelta? {
        client.HandleMapDelta(m.updates);
        MeshCache.DeltaKeeps(defs, was, m.updates);
      } else {
        client.HandleUnsubscribe(m.coords);
        MeshCache.UnsubscribeKeeps(defs, was, Elements(m.coords));
      }
    }

    /** The client's mesh worker takes its queue and meshes what is in it. */
    method Mesh(order: seq<ChunkCoordinate>)
      requires Valid() && client.batch == [] && Lists(order, client.queue)
      modifies client
      ensures Valid() && Value() == old(Value()) && client.queue == {} && client.batch == []
    {
      hide Table, MeshCache.Coherent, InStep, MeshCache.Remeshed;
      ghost var defs, was := client.renderer.defs, client.Value();
      MeshCache.CoherentIsValid(defs, was);
      client.RunMeshWorkerOnce(order);
      MeshCache.RoundKeeps(defs, was, order);
    }
  }

  lemma TableIsGood()
    ensures IsTable(Table(LOAD_LAZY_DISTANCE))
  {
    BuiltTable();
  }

  lemma AppendTwice(a: seq<Message>, b: seq<Message>, c: seq<Message>)
    ensures a + b + c == a + (b + c)
  {
  }

  lemma GoodAppend(a: seq<Message>, b: seq<Message>)
    requires GoodMessages(a) && GoodMessages(b)
    ensures GoodMessages(a + b)
  {
  }

  lemma MissingAreGood(table: seq<Offset>, center: ChunkCoordinate, known: set<ChunkCoordinate>, n: nat, ids: MapIds)
    requires IsTable(table) && InBounds(center) && WholeChunks(ids)
    ensures GoodMessages(FullChunks(First(Missing(center, known, table, 0), n), ids))
  {
    hide Missing, InBounds, IsTable;
    var sent := First(Lacking(table, center, known), n);
    forall k | 0 <= k < |sent| ensures InBounds(sent[k]) {
      assert sent[k] in Lacking(table, center, known);
      LackingExactly(table, center, known, sent[k]);
    }
  }

  lemma UnknownAreGood(known: set<ChunkCoordinate>, updates: seq<BlockUpdate>, ids: MapIds)
    requires WholeChunks(ids)
    ensures GoodMessages(FullChunks(Unknown(known, updates), ids))
  {
    forall k | 0 <= k < |Unknown(known, updates)| ensures InBounds(Unknown(known, updates)[k]) {
      UnknownInBounds(known, updates, k);
    }
  }

  lemma {:induction false} UnknownInBounds(known: set<ChunkCoordinate>, updates: seq<BlockUpdate>, k: nat)
    requires k < |Unknown(known, updates)|
    ensures InBounds(Unknown(known, updates)[k])
    decreases |updates|
  {
    hide ChunkOf, InBounds;
    var c := ChunkOf(updates[0].location);
    SplitJoin(updates[0].location);
    if c in known {
      UnknownInBounds(known, updates[1..], k);
    } else if k > 0 {
      UnknownInBounds(known + {c}, updates[1..], k - 1);
    }
  }
}
