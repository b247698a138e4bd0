/** Runs in which something goes wrong: the writeback thread ends, or an edit is lost
    (cuberef_server/src/game_state/game_map.rs). */
module MapErrors {
  import opened Wrappers
  import opened Coordinates
  import opened MapChunks
  import opened ChunkStorage
  import opened MapProtocol
  import opened GameMap
  import opened MapOperations

  // ----- the end of the writeback thread ---------------------------------------------------------------------------

  lemma PlainEditIsAllowed(env: Env, s: Store, b: BlockCoordinate, id: BlockId)
    requires SavableSet(env) && CanLoad(env, s)
    ensures AccessKeepsRules(env, s, b, Set(Cell(id, None)), true)
  {
    hide ChunkOf, IndexOf;
  }

  /** A failed load of a missing chunk. */
  lemma FailedLoadIsRun(env: Env, from: Server, s: Server, t: Tid, r: Request) returns (s': Server)
    requires Reachable(env, from, s) && Quiet(s) && t != WRITEBACK && r.Chunk() !in s.store.live
    ensures Reachable(env, from, s') && Quiet(s') && (Open(s') <==> Open(s))
    ensures s'.store == s.store.(live := s.store.live[r.Chunk() := Failed])
  {
    hide Reachable, Alone, Quiet, Open, ChunkOf;
    QuietIsIdle(s, t);
    QuietIsAlone(s, t);
    s' := Solo(env, from, s, t, Begin(r));
    s' := Solo(env, from, s', t, AcquireRead);
    s' := InsertIsRun(env, from, s', t);
    s' := Solo(env, from, s', t, LoadFails);
    assert s.store.live[r.Chunk() := Empty][r.Chunk() := Failed] == s.store.live[r.Chunk() := Failed];
    QuietIsAlone(s', t);
  }

  /** The writeback thread meets a chunk that failed to load, and ends. */
  lemma StopIsRun(env: Env, from: Server, s: Server, c: ChunkCoordinate) returns (s': Server)
    requires Reachable(env, from, s) && Quiet(s) && Open(s) && s.store.batch != [] && s.store.batch[0] == c
    requires c in s.store.live && s.store.live[c].Failed?
    ensures Reachable(env, from, s') && Quiet(s') && !Open(s') && s'.store == s.store
  {
    hide Reachable, Alone, Quiet;
    QuietIsIdle(s, WRITEBACK);
    QuietIsAlone(s, WRITEBACK);
    s' := Solo(env, from, s, WRITEBACK, StartWriteback);
    s' := Solo(env, from, s', WRITEBACK, WriteFails);
    QuietIsAlone(s', WRITEBACK);
  }

  /** An edit queues its chunk, the writeback thread takes the request, the chunk is evicted, and its next load fails:
      the writeback thread ends, in a run from a server that has just started and whose edits keep all rules. */
  lemma StopIsReachable(env: Env, t: Tid, b: BlockCoordinate, id: BlockId) returns (s: Server)
    requires GoodEnv(env) && t != WRITEBACK
    ensures Reachable(env, Start(map[]), s) && !Open(s)
  {
    hide Reachable, Alone, Quiet, ChunkOf, IndexOf, EditedIn, AccessKeepsRules, GoodContents, SavableSet;
    var start, c, r := Start(map[]), ChunkOf(b), Request(b, Set(Cell(id, None)));
    GoodAreValid(env);
    PlainEditIsAllowed(env, start.store, b, id);
    StartIsQuiet();
    s := EditIsRun(env, start, t, b, r.edit);
    PlacedIsQueued(env, start.store, b, id);
    QuietIsIdle(s, WRITEBACK);
    QuietIsAlone(s, WRITEBACK);
    s := Solo(env, start, s, WRITEBACK, Receive);
    QuietIsAlone(s, WRITEBACK);
    var evicted := UnloadIsRun(env, s, t, {c});
    ReachThrough(env, start, s, evicted);
    s := FailedLoadIsRun(env, start, evicted, t, r);
    s := StopIsRun(env, start, s, c);
  }

  lemma StartIsQuiet()
    ensures Quiet(Start(map[])) && Open(Start(map[]))
  {
  }

  lemma PlacedIsQueued(env: Env, s: Store, b: BlockCoordinate, id: BlockId)
    requires CanLoad(env, s) && s == Start(map[]).store
    ensures var s' := AfterEdit(env, s, b, Set(Cell(id, None)), true);
      && MakeRoom(s) == s && Settled(s') && s'.batch == []
      && s'.queue != [] && s'.queue[0] == ChunkOf(b) && ChunkOf(b) in s'.live
  {
    hide ChunkOf, IndexOf;
  }

  // ----- an edit that is lost --------------------------------------------------------------------------------------

  /** The same server with no rule for edits. */
  function WithoutRules(env: Env): Env { env.(savable := (i, cell) => true, exact := (c, i) => false) }

  /** The steps are the same, and every edit is allowed. */
  lemma NoRules(env: Env, s: Server, step: Step)
    ensures Enabled(WithoutRules(env), s, step) <==> Enabled(env, s, step)
    ensures Enabled(env, s, step) ==>
              Do(WithoutRules(env), s, step) == Do(env, s, step) && Allowed(WithoutRules(env), s, step)
  {
    hide ChunkOf, IndexOf, EditChunkOf, Found, KeepLast, Serialized, Parsed;
  }

  /** Extended data that its block type cannot serialize. */
  predicate CannotSerialize(env: Env, id: BlockId, data: CustomData) {
    var def := env.defs(id);
    def.Some? && def.value.serialize.Some? && def.value.serialize.value(data).Err?
  }

  lemma UnserializableFails(env: Env, k: Contents, i: BlockIndex, id: BlockId, data: CustomData)
    requires k.Valid() && CannotSerialize(env, id, data)
    requires k.Get(i) == Cell(id, Some(ExtendedData(Some(data), map[])))
    ensures Serialized(env.defs, k).Err?
  {
    hide EntriesFrom;
    assert k.ext[i] == ExtendedData(Some(data), map[]) && k.ids[i] == id;
    SerializedFrom(env.defs, k, 0);
    assert EntriesAt(env.defs, k, i).Err?;
  }

  /** A block with such data is placed and its chunk evicted, in a run from a server that has just started: the edit is
      in the history, and the server shows the generated chunk. */
  lemma UnserializableEditIsLost(env: Env, t: Tid, b: BlockCoordinate, id: BlockId, data: CustomData)
    returns (s: Server)
    requires ValidEnv(env) && t != WRITEBACK && CannotSerialize(env, id, data)
    ensures Reachable(WithoutRules(env), Start(map[]), s) && Quiet(s)
    ensures |s.store.history| == 1 && s.store.history[0].block == b && s.store.history[0].Result().id == id
    ensures Current(env, s.store, ChunkOf(b)) == env.mapgen(ChunkOf(b))
  {
    hide Reachable, Quiet, ChunkOf, IndexOf, Serialized, Parsed, AccessKeepsRules;
    var free, start, c := WithoutRules(env), Start(map[]), ChunkOf(b);
    var e := Set(Cell(id, Some(ExtendedData(Some(data), map[]))));
    StartIsQuiet();
    AnyEditIsAllowed(env, start.store, b, e);
    var edited := EditIsRun(free, start, t, b, e);
    PlacedIsDirty(env, b, id, data);
    s := UnloadIsRun(free, edited, t, {c});
    ReachThrough(free, start, edited, s);
    assert s.store.db == map[];
  }

  lemma AnyEditIsAllowed(env: Env, s: Store, b: BlockCoordinate, e: Edit)
    ensures AccessKeepsRules(WithoutRules(env), s, b, e, true)
  {
    hide ChunkOf, IndexOf, WithChunk;
  }

  lemma PlacedIsDirty(env: Env, b: BlockCoordinate, id: BlockId, data: CustomData)
    requires ValidEnv(env) && CannotSerialize(env, id, data)
    ensures var e := Set(Cell(id, Some(ExtendedData(Some(data), map[]))));
      var s := AfterEdit(WithoutRules(env), MakeRoom(Start(map[]).store), b, e, true);
      && Settled(s) && s.db == map[] && ChunkOf(b) in s.live && Fails(WithoutRules(env), s, ChunkOf(b))
      && |s.history| == 1 && s.history[0].block == b && s.history[0].edit == e
  {
    hide ChunkOf, IndexOf, Serialized;
    var e := Set(Cell(id, Some(ExtendedData(Some(data), map[]))));
    var s := AfterEdit(WithoutRules(env), Start(map[]).store, b, e, true);
    GetAfterSet(env.mapgen(ChunkOf(b)), IndexOf(b), e.cell, IndexOf(b));
    UnserializableFails(WithoutRules(env), s.live[ChunkOf(b)].chunk.contents, IndexOf(b), id, data);
  }
}
