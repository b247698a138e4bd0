/** What cannot go wrong with a map whose edits keep the rules, and what does go wrong otherwise
    (cuberef_server/src/game_state/game_map.rs). */
module MapFailures {
  import opened Wrappers
  import opened Coordinates
  import opened MapChunks
  import opened ChunkStorage
  import opened MapProtocol

  /** In every reachable state, each chunk in memory can be written and is read back in its saved form, and each chunk
      in the database can be read: no unloading, no writeback and no decoding fails. */
  lemma ChunksAreAlwaysWritten(env: Env, db: map<ChunkCoordinate, ChunkV1>, steps: seq<Step>, c: ChunkCoordinate)
    requires GoodEnv(env) && GoodDb(env, db) && Runs(env, Start(db), steps)
    ensures var s := AfterRun(env, Start(db), steps).store;
      && (c in s.live && s.live[c].Filled? ==>
            var k := s.live[c].chunk.contents;
            k.Valid() && Serialized(env.defs, k).Ok?
            && Parsed(env.defs, Serialized(env.defs, k).value) == Ok(SavedForm(env.defs, k)))
      && (c in s.db ==> Parsed(env.defs, s.db[c]).Ok?)
  {
    hide Runs, AfterRun, Refines, Serialized, Parsed, SavedForm, LocksHeld, Resident, GoodContents;
    InvariantAtStart(env, db);
    InvariantOverRun(env, Start(db), Start(db), steps);
    var s := AfterRun(env, Start(db), steps);
    assert ChunkData(env, s.store, c);
    if c in s.store.live && s.store.live[c].Filled? {
      GoodIsValid(env, c, s.store.live[c].chunk.contents);
      SavedLooksSame(env, c, s.store.live[c].chunk.contents);
    }
  }

  // ----- the writeback thread --------------------------------------------------------------------------------------

  /** No load has failed, and the writeback thread is there. */
  ghost predicate Healthy(s: Server) {
    && !PhaseOf(s, WRITEBACK).Stopped?
    && forall c :: c in s.store.live ==> !s.store.live[c].Failed?
  }

  lemma HealthyKept(env: Env, s: Server, step: Step)
    requires GoodEnv(env) && Enabled(env, s, step) && LocksHeld(s) && DataGood(env, s) && Healthy(s)
    requires !step.a.LoadFails? && !step.a.Shutdown?
    ensures Healthy(Do(env, s, step))
  {
    hide ChunkOf, IndexOf, EditChunk, Serialized, Parsed, KeepLast, Enqueues, MarksDirty, GoodContents, GoodDb, Found;
    assert ThreadLocks(s, step.t);
    if step.a.WriteFails? {
      var c := s.store.batch[0];
      assert ChunkData(env, s.store, c);
      SavedLooksSame(env, c, s.store.live[c].chunk.contents);
    }
  }

  /** No load fails in the run, and nobody asks the server to shut down. */
  predicate Undisturbed(steps: seq<Step>) {
    forall k :: 0 <= k < |steps| ==> !steps[k].a.LoadFails? && !steps[k].a.Shutdown?
  }

  lemma {:induction false} HealthyOverRun(env: Env, start: Server, s: Server, steps: seq<Step>)
    requires GoodEnv(env) && Invariant(env, start, s) && Healthy(s) && Runs(env, s, steps) && Undisturbed(steps)
    ensures Healthy(AfterRun(env, s, steps))
    decreases |steps|
  {
    hide Enabled, Do, Allowed, GoodEnv, LocksHeld, Resident, DataGood, NoneLost, AllDurable, Refines, Healthy;
    if steps != [] {
      HealthyKept(env, s, steps[0]);
      InvariantKept(env, start, s, steps[0]);
      HealthyOverRun(env, start, Do(env, s, steps[0]), steps[1..]);
    }
  }

  /** The writeback thread only stops after a load failed, by a database or generator error, or at shutdown. */
  lemma WritebackStopsOnlyIfDisturbed(env: Env, db: map<ChunkCoordinate, ChunkV1>, steps: seq<Step>)
    requires GoodEnv(env) && GoodDb(env, db) && Runs(env, Start(db), steps)
    ensures PhaseOf(AfterRun(env, Start(db), steps), WRITEBACK).Stopped? ==> !Undisturbed(steps)
  {
    hide Runs, AfterRun, Invariant;
    InvariantAtStart(env, db);
    if Undisturbed(steps) {
      HealthyOverRun(env, Start(db), Start(db), steps);
    }
  }

  /** In every reachable state: the writeback thread can end with an error exactly if it is at work and the first chunk
      of its batch has failed to load and is not locked. */
  lemma WriteFailsExactly(env: Env, db: map<ChunkCoordinate, ChunkV1>, steps: seq<Step>)
    requires GoodEnv(env) && GoodDb(env, db) && Runs(env, Start(db), steps)
    ensures var s := AfterRun(env, Start(db), steps);
      Enabled(env, s, Step(WRITEBACK, WriteFails)) <==>
        && PhaseOf(s, WRITEBACK).WritingBack? && s.store.batch != []
        && s.store.batch[0] !in s.locks.mutexes
        && s.store.batch[0] in s.store.live && s.store.live[s.store.batch[0]].Failed?
  {
    hide Runs, AfterRun, Refines, Serialized, Parsed, SavedForm, LocksHeld, Resident, GoodContents;
    InvariantAtStart(env, db);
    InvariantOverRun(env, Start(db), Start(db), steps);
    var s := AfterRun(env, Start(db), steps);
    if s.store.batch != [] {
      var c := s.store.batch[0];
      assert ChunkData(env, s.store, c);
      if c in s.store.live && s.store.live[c].Filled? {
        GoodIsValid(env, c, s.store.live[c].chunk.contents);
        SavedLooksSame(env, c, s.store.live[c].chunk.contents);
      }
    }
  }

  // ----- without the rules -----------------------------------------------------------------------------------------

  /** Evicting a dirty chunk keeps its block ids exactly if each block's extended data can be written and read back, or
      the chunk cannot be written and what is stored has the same ids anyway. */
  lemma EvictionKeepsIdsExactly(env: Env, s: Server, t: Tid, c: ChunkCoordinate)
    requires Enabled(env, s, Step(t, Evict(c))) && s.store.live[c].Filled? && s.store.live[c].chunk.dirty
    ensures var k := s.store.live[c].chunk.contents;
      Current(env, Do(env, s, Step(t, Evict(c))).store, c).ids == k.ids <==>
        (Readable(env.defs, k) || (Serialized(env.defs, k).Err? && Stored(env, s.store, c).ids == k.ids))
  {
    hide EntriesFrom, DataFrom, AfterStorage;
    var k := s.store.live[c].chunk.contents;
    if Readable(env.defs, k) {
      Stores(env.defs, k);
    } else if Serialized(env.defs, k).Ok? && Parsed(env.defs, Serialized(env.defs, k).value).Ok? {
      ParsedChunkIsReadable(env.defs, k);
    }
  }
}
