/** Which chunks a client has: what the server sends it, and what it remembers of that
    (`ClientOutboundContext`, cuberef_server/src/network_server/client_context.rs). */
module Subscriptions {
  import opened Wrappers
  import opened Coordinates
  import opened ChunkTable
  import opened MapChunks

  const LOAD_EAGER_DISTANCE: nat := 20

  const LOAD_LAZY_DISTANCE: nat := 30

  const UNLOAD_DISTANCE: nat := 40

  const MAX_UPDATE_BATCH_SIZE: nat := 256

  datatype BlockUpdate = BlockUpdate(location: BlockCoordinate, newId: BlockId)

  datatype Message =
    | FullChunk(coord: ChunkCoordinate, ids: seq<BlockId>)
    | MapDelta(updates: seq<BlockUpdate>)
    | Unsubscribe(coords: seq<ChunkCoordinate>)

  /** The block ids of the chunks in the server's map. */
  type MapIds = ChunkCoordinate -> seq<BlockId>

  // ----- position updates ------------------------------------------------------------------------------------------

  function Saturate(x: int): i32 { if x < I32_MIN then I32_MIN else if x > I32_MAX then I32_MAX else x }

  function At(center: ChunkCoordinate, o: Offset): ChunkCoordinate {
    ChunkCoordinate(Saturate(center.x + o.x), Saturate(center.y + o.y), Saturate(center.z + o.z))
  }

  predicate IsFar(center: ChunkCoordinate, c: ChunkCoordinate) { ManhattanDistance(center, c) > UNLOAD_DISTANCE }

  function Far(center: ChunkCoordinate, chunks: set<ChunkCoordinate>): set<ChunkCoordinate> {
    set c | c in chunks && IsFar(center, c)
  }

  /** Whether a table entry is to be served: in bounds, not yet with the client, and near enough to be loaded. */
  predicate Serves(center: ChunkCoordinate, known: set<ChunkCoordinate>, o: Offset) {
    InBounds(At(center, o)) && At(center, o) !in known && Distance(o) <= LOAD_EAGER_DISTANCE
  }

  /** All chunks that the client lacks, from the `i`-th table entry on, in the order of the table. */
  function Missing(center: ChunkCoordinate, known: set<ChunkCoordinate>, table: seq<Offset>, i: nat)
    : seq<ChunkCoordinate>
    requires i <= |table|
    decreases |table| - i
  {
    if i == |table| then []
    else if Serves(center, known, table[i]) then
      [At(center, table[i])] + Missing(center, known + {At(center, table[i])}, table, i + 1)
    else Missing(center, known, table, i + 1)
  }

  function First<T>(s: seq<T>, n: nat): seq<T> { if |s| <= n then s else s[..n] }

  /** Some order of a set. */
  predicate Lists(s: seq<ChunkCoordinate>, chunks: set<ChunkCoordinate>) { Distinct(s) && Elements(s) == chunks }

  function FullChunks(coords: seq<ChunkCoordinate>, ids: MapIds): seq<Message> {
    seq(|coords|, k requires 0 <= k < |coords| => FullChunk(coords[k], ids(coords[k])))
  }

  function UnsubscribeMessage(coords: seq<ChunkCoordinate>): seq<Message> {
    if coords == [] then [] else [Unsubscribe(coords)]
  }

  // ----- block updates ---------------------------------------------------------------------------------------------

  /** The batch made of the first update, whatever it is about, and of the queued ones that the client is interested in;
      and what is left in the queue. */
  function Batched(interested: set<ChunkCoordinate>, batch: seq<BlockUpdate>, events: seq<BlockUpdate>)
    : (seq<BlockUpdate>, seq<BlockUpdate>)
    decreases |events|
  {
    if |batch| >= MAX_UPDATE_BATCH_SIZE || events == [] then (batch, events)
    else if ChunkOf(events[0].location) in interested then Batched(interested, batch + [events[0]], events[1..])
    else Batched(interested, batch, events[1..])
  }

  /** The chunks of updates that the client lacks, in order. */
  function Unknown(known: set<ChunkCoordinate>, updates: seq<BlockUpdate>): seq<ChunkCoordinate>
    decreases |updates|
  {
    if updates == [] then []
    else
      var c := ChunkOf(updates[0].location);
      if c in known then Unknown(known, updates[1..]) else [c] + Unknown(known + {c}, updates[1..])
  }

  function ChunksOf(updates: seq<BlockUpdate>): set<ChunkCoordinate> { set u | u in updates :: ChunkOf(u.location) }

  class ClientOutboundContext {
    var interestedChunks: set<ChunkCoordinate>
    var chunksKnownToClient: set<ChunkCoordinate>
    var outbound: seq<Message>
    const table: seq<Offset>

    ghost predicate Valid()
      reads this
    {
      table == Table(LOAD_LAZY_DISTANCE)
    }

    constructor ()
      ensures Valid() && chunksKnownToClient == {} && interestedChunks == {} && outbound == []
    {
      var t := BuildTable(LOAD_LAZY_DISTANCE);
      interestedChunks, chunksKnownToClient, outbound, table := {}, {}, [], t;
    }

    /** Some order, as a hash set gives it. */
    method Listed(chunks: set<ChunkCoordinate>) returns (s: seq<ChunkCoordinate>)
      ensures Lists(s, chunks)
    {
      s := [];
      var rest := chunks;
      while rest != {}
        invariant Elements(s) + rest == chunks && Elements(s) !! rest && Distinct(s)
        decreases |rest|
      {
        var c :| c in rest;
        s, rest := s + [c], rest - {c};
      }
    }

    method HandlePositionUpdate(playerChunk: ChunkCoordinate, chunksToSend: nat, ids: MapIds)
      returns (unsubscribed: seq<ChunkCoordinate>)
      requires Valid()
      modifies this`interestedChunks, this`chunksKnownToClient, this`outbound
      ensures interestedChunks == old(interestedChunks) - Far(playerChunk, old(interestedChunks))
      ensures Lists(unsubscribed, Far(playerChunk, old(chunksKnownToClient)))
      ensures
        var near := old(chunksKnownToClient) - Far(playerChunk, old(chunksKnownToClient));
        var sent := First(Missing(playerChunk, near, table, 0), chunksToSend + 1);
        && chunksKnownToClient == near + Elements(sent)
        && outbound == old(outbound) + FullChunks(sent, ids) + UnsubscribeMessage(unsubscribed)
    {
      hide Far, Missing;
      var silent := Listed(Far(playerChunk, interestedChunks));
      interestedChunks := interestedChunks - Elements(silent);
      unsubscribed := Listed(Far(playerChunk, chunksKnownToClient));
      chunksKnownToClient := chunksKnownToClient - Elements(unsubscribed);
      SendMissing(playerChunk, chunksToSend, ids);
      if unsubscribed != [] {
        outbound := outbound + [Unsubscribe(unsubscribed)];
      }
    }

    /** Serves the chunks that the client lacks, in the order of the table, up to one more than asked for. */
    method SendMissing(playerChunk: ChunkCoordinate, chunksToSend: nat, ids: MapIds)
      modifies this`chunksKnownToClient, this`outbound
      ensures
        var sent := First(Missing(playerChunk, old(chunksKnownToClient), table, 0), chunksToSend + 1);
        && chunksKnownToClient == old(chunksKnownToClient) + Elements(sent)
        && outbound == old(outbound) + FullChunks(sent, ids)
    {
      hide Serves, At, FullChunks;
      ghost var todo := Missing(playerChunk, chunksKnownToClient, table, 0);
      ghost var sent := [];
      NothingYet([], ids);
      var sentChunks, i := 0, 0;
      while i < |table|
        invariant i <= |table| && |sent| == sentChunks <= chunksToSend
        invariant chunksKnownToClient == old(chunksKnownToClient) + Elements(sent)
        invariant todo == sent + Missing(playerChunk, chunksKnownToClient, table, i)
        invariant outbound == old(outbound) + FullChunks(sent, ids)
      {
        var coord := At(playerChunk, table[i]);
        if Serves(playerChunk, chunksKnownToClient, table[i]) {
          FullChunksAppend(sent, coord, ids);
          outbound := outbound + [FullChunk(coord, ids(coord))];
          chunksKnownToClient := chunksKnownToClient + {coord};
          sent := sent + [coord];
          sentChunks := sentChunks + 1;
          if sentChunks > chunksToSend {
            break;
          }
        }
        i := i + 1;
      }
      assert sent == First(todo, chunksToSend + 1);
    }

    method MaybeSendFullChunk(coord: ChunkCoordinate, ids: MapIds)
      modifies this`chunksKnownToClient, this`outbound
      ensures chunksKnownToClient == old(chunksKnownToClient) + {coord}
      ensures outbound ==
              old(outbound) + if coord in old(chunksKnownToClient) then [] else [FullChunk(coord, ids(coord))]
    {
      if coord !in chunksKnownToClient {
        chunksKnownToClient := chunksKnownToClient + {coord};
        outbound := outbound + [FullChunk(coord, ids(coord))];
      }
    }

    method Drain(events: seq<BlockUpdate>) returns (updates: seq<BlockUpdate>, rest: seq<BlockUpdate>)
      requires events != []
      ensures Batched(interestedChunks, [events[0]], events[1..]) == (updates, rest)
    {
      updates := [events[0]];
      rest := events[1..];
      while |updates| < MAX_UPDATE_BATCH_SIZE && rest != []
        invariant Batched(interestedChunks, [events[0]], events[1..]) == Batched(interestedChunks, updates, rest)
        decreases |rest|
      {
        if ChunkOf(rest[0].location) in interestedChunks {
          updates := updates + [rest[0]];
        }
        rest := rest[1..];
      }
    }

    /** Handles the first queued block update, and with it as many more as fit. */
    method HandleBlockUpdate(events: seq<BlockUpdate>, ids: MapIds)
      returns (updates: seq<BlockUpdate>, rest: seq<BlockUpdate>)
      requires events != []
      modifies this`chunksKnownToClient, this`outbound
      ensures Batched(interestedChunks, [events[0]], events[1..]) == (updates, rest)
      ensures chunksKnownToClient == old(chunksKnownToClient) + ChunksOf(updates)
      ensures outbound ==
              old(outbound) + FullChunks(Unknown(old(chunksKnownToClient), updates), ids) + [MapDelta(updates)]
    {
      hide ChunkOf, FullChunks, ChunksOf;
      updates, rest := Drain(events);
      hide Batched;
      ghost var todo := Unknown(chunksKnownToClient, updates);
      ghost var sent := [];
      NothingYet(updates, ids);
      for k := 0 to |updates|
        invariant todo == sent + Unknown(chunksKnownToClient, updates[k..])
        invariant chunksKnownToClient == old(chunksKnownToClient) + ChunksOf(updates[..k])
        invariant outbound == old(outbound) + FullChunks(sent, ids)
      {
        assert updates[k..][0] == updates[k] && updates[k..][1..] == updates[k + 1..];
        ChunksOfAppend(updates, k);
        var coord := ChunkOf(updates[k].location);
        assert coord in chunksKnownToClient ==> chunksKnownToClient + {coord} == chunksKnownToClient;
        if coord !in chunksKnownToClient {
          FullChunksAppend(sent, coord, ids);
          sent := sent + [coord];
        }
        MaybeSendFullChunk(coord, ids);
      }
      assert updates[..|updates|] == updates && updates[|updates|..] == [] && todo == sent;
      outbound := outbound + [MapDelta(updates)];
    }

    method HandleBlockUpdateLagged()
      modifies this`chunksKnownToClient, this`interestedChunks
      ensures chunksKnownToClient == {} && interestedChunks == {}
    {
      chunksKnownToClient := {};
      interestedChunks := {};
    }
  }

  lemma NothingYet(updates: seq<BlockUpdate>, ids: MapIds)
    ensures FullChunks([], ids) == [] && ChunksOf(updates[..0]) == {} && updates[0..] == updates
  {
  }

  lemma FullChunksAppend(coords: seq<ChunkCoordinate>, c: ChunkCoordinate, ids: MapIds)
    ensures FullChunks(coords + [c], ids) == FullChunks(coords, ids) + [FullChunk(c, ids(c))]
  {
  }

  lemma ChunksOfAppend(updates: seq<BlockUpdate>, k: nat)
    requires k < |updates|
    ensures ChunksOf(updates[..k + 1]) == ChunksOf(updates[..k]) + {ChunkOf(updates[k].location)}
  {
    assert updates[..k + 1] == updates[..k] + [updates[k]];
    assert updates[k] in updates[..k + 1];
  }

  /** The updates that are about chunks that the client is interested in, in order. */
  function Wanted(interested: set<ChunkCoordinate>, events: seq<BlockUpdate>): seq<BlockUpdate> {
    if events == [] then []
    else
      var last := events[|events| - 1];
      Wanted(interested, events[..|events| - 1]) + if ChunkOf(last.location) in interested then [last] else []
  }

  lemma WantedOfNone(interested: set<ChunkCoordinate>)
    ensures Wanted(interested, []) == []
  {
  }

  lemma {:induction false} WantedOfFirst(interested: set<ChunkCoordinate>, e: BlockUpdate, rest: seq<BlockUpdate>)
    ensures Wanted(interested, [e] + rest) == (if ChunkOf(e.location) in interested then [e] else [])
                                              + Wanted(interested, rest)
    decreases |rest|
  {
    hide ChunkOf;
    if rest == [] {
      assert [e] + rest == [e] && [e][..0] == [];
      assert Wanted(interested, [e][..0]) == [];
    } else {
      WantedOfFirst(interested, e, rest[..|rest| - 1]);
      assert ([e] + rest)[..|rest|] == [e] + rest[..|rest| - 1];
    }
  }

  /** A batch grows by the wanted updates among those taken from the queue, in order, and no others; the queue is
      emptied unless the batch is full. */
  lemma {:induction false} BatchedExactly(
    interested: set<ChunkCoordinate>, batch: seq<BlockUpdate>, events: seq<BlockUpdate>)
    requires |batch| <= MAX_UPDATE_BATCH_SIZE
    ensures var (updates, rest) := Batched(interested, batch, events);
      && |rest| <= |events| && rest == events[|events| - |rest|..]
      && updates == batch + Wanted(interested, events[..|events| - |rest|])
      && |updates| <= MAX_UPDATE_BATCH_SIZE && (rest != [] ==> |updates| == MAX_UPDATE_BATCH_SIZE)
    decreases |events|
  {
    hide ChunkOf, Wanted;
    var (updates, rest) := Batched(interested, batch, events);
    if |batch| == MAX_UPDATE_BATCH_SIZE || events == [] {
      WantedOfNone(interested);
      assert events[..0] == [];
    } else {
      var more := if ChunkOf(events[0].location) in interested then [events[0]] else [];
      assert batch + [] == batch;
      BatchedExactly(interested, batch + more, events[1..]);
      var n := |events| - |rest|;
      assert events[1..][..n - 1] == events[1..n] && events[..n] == [events[0]] + events[1..n];
      WantedOfFirst(interested, events[0], events[1..n]);
    }
  }

  /** Exactly the chunks of the updates that the client lacks, each once. */
  lemma {:induction false} UnknownExactlyOnce(known: set<ChunkCoordinate>, updates: seq<BlockUpdate>)
    ensures Elements(Unknown(known, updates)) == ChunksOf(updates) - known
    ensures Distinct(Unknown(known, updates))
    decreases |updates|
  {
    hide ChunkOf;
    if updates != [] {
      var c := ChunkOf(updates[0].location);
      UnknownExactlyOnce(if c in known then known else known + {c}, updates[1..]);
      assert updates == [updates[0]] + updates[1..];
      assert ChunksOf(updates) == {c} + ChunksOf(updates[1..]);
      if c !in known {
        var rest := Unknown(known + {c}, updates[1..]);
        assert Elements([c] + rest) == {c} + Elements(rest);
        assert c !in Elements(rest);
      }
    }
  }
}
