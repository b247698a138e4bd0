/** The server's map as its callers use it, one operation at a time
    (`ServerGameMap`, `MapCacheCleanup`, `GameMapWriteback`, cuberef_server/src/game_state/game_map.rs). */
module GameMap {
  import opened Wrappers
  import opened Coordinates
  import opened MapChunks
  import opened ChunkStorage
  import opened MapProtocol

  // ----- what the operations make of the store ---------------------------------------------------------------------

  /** Every holder is filled or failed, as it is whenever no load is under way. */
  predicate Settled(s: Store) { forall c :: c in s.live ==> s.live[c].Failed? || s.live[c].IsValid() }

  /** Only chunks of the map, none of them failed, and clean ones agree with the database. */
  ghost predicate GoodStore(env: Env, s: Store) {
    && (forall c :: c in s.live ==> s.live[c].IsValid())
    && GoodDb(env, s.db) && forall c: ChunkCoordinate :: ChunkData(env, s, c)
  }

  ghost predicate ValidEnv(env: Env) { forall c :: env.mapgen(c).Valid() }

  ghost predicate CanLoad(env: Env, s: Store) { Settled(s) && ValidEnv(env) }

  /** The holder of a chunk read from the database. */
  function Read(env: Env, v: ChunkV1): Holder {
    var r := Parsed(env.defs, v);
    if r.Ok? then Filled(LiveChunk(r.value, false)) else Failed
  }

  /** `get_chunk`: a missing chunk is loaded, or generated and queued. `open` says whether requests for writebacks are
      accepted; without, no chunk is generated. */
  function WithChunk(env: Env, s: Store, c: ChunkCoordinate, open: bool): Store {
    if c in s.live then s
    else if c in s.db then s.(live := s.live[c := Read(env, s.db[c])])
    else if !open then s.(live := s.live[c := Failed])
    else s.(live := s.live[c := Filled(LiveChunk(env.mapgen(c), true))], queue := s.queue + [c])
  }

  /** An edit of one block whose chunk has been loaded; none if that failed. Without acceptance it is made all the same,
      and not queued. */
  function EditedIn(loaded: Store, b: BlockCoordinate, e: Edit, open: bool): Store
    requires ChunkOf(b) in loaded.live
    requires loaded.live[ChunkOf(b)].Filled? ==> loaded.live[ChunkOf(b)].IsValid()
  {
    var c, i := ChunkOf(b), IndexOf(b);
    if !loaded.live[c].Filled? then loaded
    else
      var chunk := loaded.live[c].chunk;
      var before := chunk.contents.Get(i);
      var chunk' := EditChunk(chunk, i, e);
      loaded.(live := loaded.live[c := Filled(chunk')],
              queue := if open && Enqueues(e, before, chunk'.dirty) then loaded.queue + [c] else loaded.queue,
              history := loaded.history + [Event(b, e, before)],
              unsaved := if MarksDirty(e, before) then loaded.unsaved + {c} else loaded.unsaved)
  }

  /** An access to one block, its chunk loaded first. */
  function AfterEdit(env: Env, s: Store, b: BlockCoordinate, e: Edit, open: bool): Store
    requires ChunkOf(b) in s.live ==> s.live[ChunkOf(b)].Failed? || s.live[ChunkOf(b)].IsValid()
    requires env.mapgen(ChunkOf(b)).Valid()
  {
    EditedIn(WithChunk(env, s, ChunkOf(b), open), b, e, open)
  }

  /** An access as its caller sees it. The block holds `cell` and every other block of its chunk is as it was found,
      wherever the chunk was; the chunk is marked as changed if the access `marks` it or it was changed before, with
      which a generated chunk starts; a generated chunk is queued, and again if the access `asks` for that; no other
      chunk is touched, and the access is remembered with the block that it found. */
  ghost predicate Leaves(
    env: Env, was: Store, now: Store, b: BlockCoordinate, e: Edit, cell: Cell, marks: bool, asks: bool, open: bool)
  {
    var c, i := ChunkOf(b), IndexOf(b);
    var found := Current(env, was, c);
    var generated := c !in was.live && c !in was.db;
    && c in now.live && now.live[c].IsValid() && found.Valid()
    && (forall j: BlockIndex :: now.live[c].chunk.contents.Get(j) == if j == i then cell else found.Get(j))
    && (now.live[c].chunk.dirty <==> marks || generated || IsDirty(was, c))
    && now.queue == was.queue + (if generated then [c] else []) + (if asks && open then [c] else [])
    && now.db == was.db && now.batch == was.batch
    && (forall d :: d != c ==> (d in now.live <==> d in was.live))
    && (forall d :: d != c && d in was.live ==> now.live[d] == was.live[d])
    && now.history == was.history + [Event(b, e, found.Get(i))]
    && now.unsaved == if marks then was.unsaved + {c} else was.unsaved
  }

  /** What an access finds at its block, wherever the chunk is. */
  function FoundAt(env: Env, s: Store, b: BlockCoordinate): Cell
    requires Current(env, s, ChunkOf(b)).Valid()
  {
    Current(env, s, ChunkOf(b)).Get(IndexOf(b))
  }

  /** Whether an access finds or makes its chunk: it has not failed before, it can be read if it is stored, and
      requests for writebacks are accepted if it is to be generated. */
  predicate Loadable(env: Env, s: Store, c: ChunkCoordinate, open: bool) {
    if c in s.live then s.live[c].Filled? else if c in s.db then Parsed(env.defs, s.db[c]).Ok? else open
  }

  /** A chunk that unloading has to write. */
  predicate IsDirty(s: Store, c: ChunkCoordinate) { c in s.live && s.live[c].Filled? && s.live[c].chunk.dirty }

  /** A chunk that unloading loses: it is out of memory before it turns out that it cannot be serialized. */
  predicate Fails(env: Env, s: Store, c: ChunkCoordinate) { IsDirty(s, c) && !Writable(env, s.live[c]) }

  predicate AnyFails(env: Env, s: Store, gone: set<ChunkCoordinate>) { exists c :: c in gone && Fails(env, s, c) }

  /** What unloading a set of chunks writes. */
  function Written(env: Env, s: Store, gone: set<ChunkCoordinate>): map<ChunkCoordinate, ChunkV1> {
    map c | c in gone && IsDirty(s, c) && Writable(env, s.live[c])
      :: Serialized(env.defs, s.live[c].chunk.contents).value
  }

  /** A set of chunks unloaded, the dirty ones written if they can be. */
  function Unloaded(env: Env, s: Store, gone: set<ChunkCoordinate>): Store {
    s.(live := s.live - gone,
       db := s.db + Written(env, s, gone),
       unsaved := set c | c in s.unsaved && (c !in gone || Fails(env, s, c)))
  }

  /** Whether a chunk of the batch can be written, if it is in memory. */
  predicate WritesBack(env: Env, s: Store, c: ChunkCoordinate) { c in s.live ==> Writable(env, s.live[c]) }

  /** One chunk written back. */
  function WrittenBack(env: Env, s: Store, c: ChunkCoordinate): Store
    requires WritesBack(env, s, c)
  {
    if c !in s.live then s
    else
      s.(db := s.db[c := Serialized(env.defs, s.live[c].chunk.contents).value],
         live := s.live[c := Filled(s.live[c].chunk.(dirty := false))],
         unsaved := s.unsaved - {c})
  }

  /** A batch written back, up to the first chunk that cannot be written; and whether there is none. */
  function AllWrittenBack(env: Env, s: Store, batch: seq<ChunkCoordinate>): (r: (Store, bool))
    ensures Settled(s) ==> Settled(r.0)
  {
    if batch == [] then (s, true)
    else
      var (r, ok) := AllWrittenBack(env, s, batch[..|batch| - 1]);
      var c := batch[|batch| - 1];
      if ok && WritesBack(env, r, c) then (WrittenBack(env, r, c), true) else (r, false)
  }

  // ----- the class -------------------------------------------------------------------------------------------------

  const CACHE_CLEAN_MIN_AGE: nat := 15

  const KEEP_N_RECENTLY_USED: nat := 128

  const RELOCK_EVERY_N: nat := 32

  /** How many of so many are not kept. */
  function Excess(n: nat): nat { if n <= KEEP_N_RECENTLY_USED then 0 else n - KEEP_N_RECENTLY_USED }

  class ServerGameMap {
    const env: Env
    var liveChunks: map<ChunkCoordinate, Holder>
    var lastAccessed: map<ChunkCoordinate, nat>
    var database: map<ChunkCoordinate, ChunkV1>
    var writebackQueue: seq<ChunkCoordinate>
    var clock: nat
    var cancelled: bool
    ghost var history: seq<Event>
    ghost var unsaved: set<ChunkCoordinate>

    ghost predicate Valid()
      reads this
    {
      && CanLoad(env, Value())
      && lastAccessed.Keys == liveChunks.Keys
      && (forall c :: c in lastAccessed ==> lastAccessed[c] <= clock)
    }

    ghost function Value(): Store
      reads this
    {
      Store(liveChunks, database, writebackQueue, [], history, unsaved)
    }

    constructor (env: Env, database: map<ChunkCoordinate, ChunkV1>)
      requires ValidEnv(env)
      ensures Valid() && this.env == env && Value() == Start(database).store && !cancelled
    {
      this.env := env;
      liveChunks := map[];
      lastAccessed := map[];
      this.database := database;
      writebackQueue := [];
      clock := 0;
      cancelled := false;
      history := [];
      unsaved := {};
    }

    /** Time passes. */
    method Now() returns (now: nat)
      modifies this`clock
      ensures now == clock >= old(clock)
    {
      now :| now >= clock;
      clock := now;
    }

    method BumpAccessTime(c: ChunkCoordinate)
      requires Valid() && c in liveChunks
      modifies this`clock, this`lastAccessed
      ensures Valid() && clock >= old(clock) && lastAccessed == old(lastAccessed)[c := clock]
    {
      var now := Now();
      lastAccessed := lastAccessed[c := now];
    }

    /** Asks for a writeback; refused once the writeback thread has stopped. */
    method EnqueueWriteback(c: ChunkCoordinate) returns (ok: bool)
      modifies this`writebackQueue
      ensures ok <==> !cancelled
      ensures writebackQueue == if ok then old(writebackQueue) + [c] else old(writebackQueue)
    {
      ok := !cancelled;
      if ok {
        writebackQueue := writebackQueue + [c];
      }
    }

    /** `get_chunk` and `wait_and_get`; None if the chunk could not be loaded, now or before. */
    method GetChunk(c: ChunkCoordinate) returns (chunk: Option<LiveChunk>)
      requires Valid()
      modifies this
      ensures Valid() && clock >= old(clock) && lastAccessed == old(lastAccessed)[c := clock]
      ensures Value() == WithChunk(env, old(Value()), c, !cancelled) && cancelled == old(cancelled)
      ensures history == old(history) && c in liveChunks && (chunk.Some? <==> liveChunks[c].Filled?)
      ensures chunk.Some? ==> liveChunks[c] == Filled(chunk.value) && chunk.value.contents.Valid()
    {
      hide Parsed;
      ParsedIsValid(env);
      if c !in liveChunks {
        if c in database {
          liveChunks := liveChunks[c := Read(env, database[c])];
        } else {
          var ok := EnqueueWriteback(c);
          liveChunks := liveChunks[c := if ok then Filled(LiveChunk(env.mapgen(c), true)) else Failed];
        }
        lastAccessed := lastAccessed[c := clock];
      }
      chunk := if liveChunks[c].Filled? then Some(liveChunks[c].chunk) else None;
      BumpAccessTime(c);
    }

    /** The last access, which is the one that just took place. */
    ghost function LastEvent(): Event
      requires history != []
      reads this
    {
      history[|history| - 1]
    }

    /** Returns the block, or None if its chunk cannot be loaded. */
    method GetBlock(b: BlockCoordinate) returns (cell: Option<Cell>)
      requires Valid()
      modifies this
      ensures Valid() && Value() == AfterEdit(env, old(Value()), b, Get, !cancelled) && cancelled == old(cancelled)
      ensures cell.Some? <==> liveChunks[ChunkOf(b)].Filled?
      ensures cell.Some? ==> history == old(history) + [Event(b, Get, cell.value)]
      ensures cell.Some? <==> Loadable(env, old(Value()), ChunkOf(b), !cancelled)
      ensures cell.Some? ==>
        && Leaves(env, old(Value()), Value(), b, Get, cell.value, false, false, !cancelled)
        && Current(env, old(Value()), ChunkOf(b)).Valid() && cell == Some(FoundAt(env, old(Value()), b))
    {
      hide ChunkOf, IndexOf, WithChunk, Loadable, Leaves, Current, CanLoad, IsDirty;
      AccessLeaves(env, Value(), b, Get, !cancelled);
      var chunk := GetChunk(ChunkOf(b));
      if chunk.None? {
        return None;
      }
      cell := Some(chunk.value.contents.Get(IndexOf(b)));
      EditedSame(Value(), b, Get, !cancelled);
      history := history + [Event(b, Get, cell.value)];
      assert history[|old(history)|] == Event(b, Get, cell.value);
    }

    /** Replaces the block and returns the previous one; None if the chunk cannot be loaded, or if the block is replaced
        but its writeback is refused. */
    method SetBlock(b: BlockCoordinate, cell: Cell) returns (previous: Option<Cell>)
      requires Valid()
      modifies this
      ensures Valid() && Value() == AfterEdit(env, old(Value()), b, Set(cell), !cancelled)
      ensures cancelled == old(cancelled)
      ensures previous.Some? <==> liveChunks[ChunkOf(b)].Filled? && !cancelled
      ensures previous.Some? ==> history == old(history) + [Event(b, Set(cell), previous.value)]
      ensures Loadable(env, old(Value()), ChunkOf(b), !cancelled) ==>
                Leaves(env, old(Value()), Value(), b, Set(cell), cell, true, true, !cancelled)
    {
      hide ChunkOf, IndexOf, WithChunk, Loadable, Leaves, Current, CanLoad, IsDirty;
      AccessLeaves(env, Value(), b, Set(cell), !cancelled);
      var c, i := ChunkOf(b), IndexOf(b);
      var chunk := GetChunk(c);
      if chunk.None? {
        return None;
      }
      var found := chunk.value.contents.Get(i);
      liveChunks := liveChunks[c := Filled(LiveChunk(chunk.value.contents.Set(i, cell), true))];
      history := history + [Event(b, Set(cell), found)];
      unsaved := unsaved + {c};
      var ok := EnqueueWriteback(c);
      previous := if ok then Some(found) else None;
    }

    /** Returns whether the block matched, and the block found; None if the chunk cannot be loaded, or if the block is
        replaced but its writeback is refused. */
    method CompareAndSetBlock(b: BlockCoordinate, matches: Cell -> bool, cell: Cell)
      returns (outcome: bool, previous: Option<Cell>)
      requires Valid()
      modifies this
      ensures Valid() && Value() == AfterEdit(env, old(Value()), b, CompareAndSet(matches, cell), !cancelled)
      ensures cancelled == old(cancelled)
      ensures previous.Some? <==>
              liveChunks[ChunkOf(b)].Filled? && (cancelled ==> history != [] && !matches(LastEvent().before))
      ensures previous.Some? ==> history == old(history) + [Event(b, CompareAndSet(matches, cell), previous.value)]
      ensures outcome <==> previous.Some? && matches(previous.value)
      ensures Loadable(env, old(Value()), ChunkOf(b), !cancelled) ==>
                var found := FoundAt(env, old(Value()), b);
                Leaves(env, old(Value()), Value(), b, CompareAndSet(matches, cell),
                       if matches(found) then cell else found, matches(found), matches(found), !cancelled)
    {
      hide ChunkOf, IndexOf, WithChunk, Loadable, Leaves, Current, CanLoad, IsDirty;
      AccessLeaves(env, Value(), b, CompareAndSet(matches, cell), !cancelled);
      var c, i := ChunkOf(b), IndexOf(b);
      var chunk := GetChunk(c);
      if chunk.None? {
        return false, None;
      }
      var found := chunk.value.contents.Get(i);
      EditedSame(Value(), b, CompareAndSet(matches, cell), !cancelled);
      history := history + [Event(b, CompareAndSet(matches, cell), found)];
      if !matches(found) {
        return false, Some(found);
      }
      liveChunks := liveChunks[c := Filled(LiveChunk(chunk.value.contents.Set(i, cell), true))];
      unsaved := unsaved + {c};
      outcome := EnqueueWriteback(c);
      previous := if outcome then Some(found) else None;
    }

    /** Returns whether the chunk was loaded and no writeback was refused. */
    method MutateBlockAtomically(b: BlockCoordinate, mutator: Mutator) returns (ok: bool)
      requires Valid()
      modifies this
      ensures Valid() && Value() == AfterEdit(env, old(Value()), b, Mutate(mutator), !cancelled)
      ensures cancelled == old(cancelled)
      ensures ok <==>
              liveChunks[ChunkOf(b)].Filled? && (liveChunks[ChunkOf(b)].chunk.dirty ==> !cancelled)
      ensures Loadable(env, old(Value()), ChunkOf(b), !cancelled) ==>
                var found := FoundAt(env, old(Value()), b);
                Leaves(env, old(Value()), Value(), b, Mutate(mutator), mutator(found).cell,
                       mutator(found).cell.id != found.id || mutator(found).setDirty,
                       IsDirty(Value(), ChunkOf(b)), !cancelled)
    {
      hide ChunkOf, IndexOf, WithChunk, Loadable, Leaves, Current, CanLoad, IsDirty, EditedIn;
      AccessLeaves(env, Value(), b, Mutate(mutator), !cancelled);
      var chunk := GetChunk(ChunkOf(b));
      if chunk.None? {
        NothingToMutate(Value(), b, mutator, !cancelled);
        return false;
      }
      ok := MutateLoaded(chunk.value, b, mutator);
    }

    /** What is done under the lock of the chunk. */
    method MutateLoaded(chunk: LiveChunk, b: BlockCoordinate, mutator: Mutator) returns (ok: bool)
      requires ChunkOf(b) in liveChunks && liveChunks[ChunkOf(b)] == Filled(chunk) && chunk.contents.Valid()
      modifies this`liveChunks, this`history, this`unsaved, this`writebackQueue
      ensures Value() == EditedIn(old(Value()), b, Mutate(mutator), !cancelled)
      ensures liveChunks.Keys == old(liveChunks).Keys && liveChunks[ChunkOf(b)].Filled?
      ensures ok <==> (liveChunks[ChunkOf(b)].chunk.dirty ==> !cancelled)
    {
      hide ChunkOf, IndexOf, EditChunk, MarksDirty;
      var c, i := ChunkOf(b), IndexOf(b);
      var before := chunk.contents.Get(i);
      var chunk' := MutatedChunk(chunk, i, mutator);
      liveChunks := liveChunks[c := Filled(chunk')];
      history := history + [Event(b, Mutate(mutator), before)];
      unsaved := if MarksDirty(Mutate(mutator), before) then unsaved + {c} else unsaved;
      ok := true;
      if chunk'.dirty {
        ok := EnqueueWriteback(c);
      }
    }

    /** `unload_chunk_locked`: the chunk is removed, and then written if it is dirty; an error loses it. */
    method UnloadChunkLocked(c: ChunkCoordinate) returns (ok: bool)
      requires Valid()
      modifies this`liveChunks, this`lastAccessed, this`database, this`unsaved
      ensures Valid() && Value() == Unloaded(env, old(Value()), {c})
      ensures lastAccessed == old(lastAccessed) - {c}
      ensures ok <==> !Fails(env, old(Value()), c)
      ensures liveChunks == old(liveChunks) - {c}
      ensures var writes := c in old(liveChunks) && old(liveChunks)[c].Filled? && old(liveChunks)[c].chunk.dirty;
        && (!writes ==> ok && database == old(database))
        && (writes ==>
              var data := Serialized(env.defs, old(liveChunks)[c].chunk.contents);
              && (ok <==> data.Ok?)
              && database == if ok then old(database)[c := data.value] else old(database))
    {
      hide ValidEnv, Serialized, Written;
      WrittenOne(env, Value(), c);
      ghost var was := Value();
      ok := true;
      if c in liveChunks {
        var holder := liveChunks[c];
        liveChunks := liveChunks - {c};
        lastAccessed := lastAccessed - {c};
        if holder.Filled? && holder.chunk.dirty {
          var data := Serialized(env.defs, holder.chunk.contents);
          if data.Err? {
            ok := false;
          } else {
            database := database[c := data.value];
          }
        }
      }
      unsaved := if ok then unsaved - {c} else unsaved;
      assert unsaved == Unloaded(env, was, {c}).unsaved;
    }

    /** `flush`: every chunk is unloaded, whether or not some are lost. */
    method Flush()
      requires Valid()
      modifies this
      ensures Valid() && liveChunks == map[]
      ensures Value() == Unloaded(env, old(Value()), old(liveChunks.Keys))
    {
      hide Unloaded, Settled, ValidEnv, Fails;
      var coords := liveChunks.Keys;
      ghost var gone := {};
      UnloadNone(env, Value());
      while coords != {}
        invariant Valid() && gone + coords == old(liveChunks.Keys) && gone !! coords
        invariant Value() == Unloaded(env, old(Value()), gone)
        decreases |coords|
      {
        var c :| c in coords;
        var _ := UnloadChunkLocked(c);
        UnloadedTwice(env, old(Value()), gone, {c});
        coords, gone := coords - {c}, gone + {c};
      }
      assert gone == old(liveChunks.Keys);
      UnloadAll(env, old(Value()));
    }

    /** `do_writebacks`: one pass over the gathered chunks, up to the first error, which ends the thread. */
    method DoWritebacks(writebacks: seq<ChunkCoordinate>) returns (ok: bool)
      requires Valid()
      modifies this`liveChunks, this`database, this`unsaved, this`cancelled
      ensures Valid() && (Value(), ok) == AllWrittenBack(env, old(Value()), writebacks)
      ensures cancelled == (old(cancelled) || !ok)
      ensures ok <==> forall c :: c in writebacks && c in old(liveChunks) ==> Writable(env, old(liveChunks)[c])
      ensures ok ==> forall c :: IsWrittenBack(env, old(Value()), Value(), writebacks, c)
    {
      hide Serialized, ValidEnv, IsWrittenBack, WritesBack, WrittenBack;
      WritesAllBack(env, Value(), writebacks);
      for k := 0 to |writebacks|
        invariant Valid() && (Value(), true) == AllWrittenBack(env, old(Value()), writebacks[..k])
        invariant cancelled == old(cancelled)
      {
        assert writebacks[..k + 1][..k] == writebacks[..k];
        var written := WriteBackOne(writebacks[k]);
        if !written {
          StopsThere(env, old(Value()), writebacks, k);
          cancelled := true;
          return false;
        }
      }
      assert writebacks[..|writebacks|] == writebacks;
      ok := true;
    }

    method WriteBackOne(c: ChunkCoordinate) returns (ok: bool)
      requires Valid()
      modifies this`liveChunks, this`database, this`unsaved
      ensures Valid() && (ok <==> WritesBack(env, old(Value()), c))
      ensures Value() == if ok then WrittenBack(env, old(Value()), c) else old(Value())
    {
      hide Serialized, ValidEnv;
      ok := true;
      if c in liveChunks {
        if liveChunks[c].Failed? || Serialized(env.defs, liveChunks[c].chunk.contents).Err? {
          return false;
        }
        var chunk := liveChunks[c].chunk;
        database := database[c := Serialized(env.defs, chunk.contents).value];
        liveChunks := liveChunks[c := Filled(chunk.(dirty := false))];
        unsaved := unsaved - {c};
      }
    }

    /** Some order of decreasing access time; ties in any order. */
    method SortedByRecency(entries: set<ChunkCoordinate>) returns (s: seq<ChunkCoordinate>)
      requires entries <= lastAccessed.Keys
      ensures Elements(s) == entries && Distinct(s) && ByRecency(lastAccessed, s)
    {
      hide ByRecency, NoneNewer, Distinct, Elements;
      s := [];
      var rest := entries;
      NothingSorted(lastAccessed, rest);
      while rest != {}
        invariant rest <= entries && Elements(s) == entries - rest && Distinct(s)
        invariant ByRecency(lastAccessed, s) && NoneNewer(lastAccessed, s, rest)
        decreases |rest|
      {
        MostRecentExists(lastAccessed, rest);
        var c :| c in rest && forall d :: d in rest ==> lastAccessed[d] <= lastAccessed[c];
        SortedWithNext(lastAccessed, s, c, rest);
        s, rest := s + [c], rest - {c};
      }
    }

    /** One iteration of `do_cleanup` under the write lock. Of the chunks old enough at this moment, the most recently
        used are kept, and of the others at most `RELOCK_EVERY_N` are unloaded, up to the first error. */
    method CleanupRound()
      returns (ok: bool, more: bool, ghost gone: set<ChunkCoordinate>, ghost kept: set<ChunkCoordinate>)
      requires Valid()
      modifies this
      ensures Valid() && clock >= old(clock)
      ensures Value() == Unloaded(env, old(Value()), gone) && lastAccessed == old(lastAccessed) - gone
      ensures ok <==> !AnyFails(env, old(Value()), gone)
      ensures |old(liveChunks)| <= KEEP_N_RECENTLY_USED ==> gone == {} && !more
      ensures |old(liveChunks)| > KEEP_N_RECENTLY_USED ==>
                var aged := Aged(old(lastAccessed), clock);
                && gone <= aged
                && (ok ==> |gone| == Min(RELOCK_EVERY_N, Excess(|aged|)))
                && (more <==> |aged| > RELOCK_EVERY_N + KEEP_N_RECENTLY_USED)
                && (gone != {} ==> MostRecent(old(lastAccessed), aged, kept) && kept !! gone)
    {
      hide Unloaded, Settled, ValidEnv, MostRecent, Distinct, Aged, Elements, Fails;
      ok, gone, kept := true, {}, {};
      var now := Now();
      UnloadNone(env, Value());
      assert lastAccessed - {} == lastAccessed;
      if |liveChunks| <= KEEP_N_RECENTLY_USED {
        more := false;
        return;
      }
      var victims;
      victims, more, kept := ChooseVictims(now);
      ok, gone := EvictAll(victims);
      DistinctSize(victims);
    }

    method ChooseVictims(now: nat)
      returns (victims: seq<ChunkCoordinate>, more: bool, ghost kept: set<ChunkCoordinate>)
      ensures var aged, gone := Aged(lastAccessed, now), Elements(victims);
        && Distinct(victims) && |victims| == Min(RELOCK_EVERY_N, Excess(|aged|)) && gone <= aged
        && (more <==> |aged| > RELOCK_EVERY_N + KEEP_N_RECENTLY_USED)
        && (gone != {} ==> MostRecent(lastAccessed, aged, kept) && kept !! gone)
    {
      hide MostRecent, Aged;
      AgedAreKnown(lastAccessed, now);
      var entries := SortedByRecency(Aged(lastAccessed, now));
      DistinctSize(entries);
      more := |entries| > RELOCK_EVERY_N + KEEP_N_RECENTLY_USED;
      victims, kept := [], {};
      if |entries| > KEEP_N_RECENTLY_USED {
        TopIsMostRecent(lastAccessed, entries, KEEP_N_RECENTLY_USED);
        kept := Elements(entries[..KEEP_N_RECENTLY_USED]);
        victims := entries[KEEP_N_RECENTLY_USED..];
        if |victims| > RELOCK_EVERY_N {
          victims := victims[..RELOCK_EVERY_N];
        }
      }
    }

    method EvictAll(victims: seq<ChunkCoordinate>) returns (ok: bool, ghost gone: set<ChunkCoordinate>)
      requires Valid() && Distinct(victims)
      modifies this`liveChunks, this`lastAccessed, this`database, this`unsaved
      ensures Valid() && Value() == Unloaded(env, old(Value()), gone)
      ensures lastAccessed == old(lastAccessed) - gone
      ensures gone <= Elements(victims) && (ok ==> gone == Elements(victims))
      ensures ok <==> !AnyFails(env, old(Value()), gone)
    {
      hide Unloaded, Settled, ValidEnv, Fails;
      ok, gone := true, {};
      UnloadNone(env, Value());
      var k := 0;
      while k < |victims| && ok
        invariant k <= |victims| && Valid() && gone == Elements(victims[..k])
        invariant Value() == Unloaded(env, old(Value()), gone)
        invariant lastAccessed == old(lastAccessed) - gone
        invariant ok <==> !AnyFails(env, old(Value()), gone)
        decreases |victims| - k, ok
      {
        var c := victims[k];
        assert c !in gone;
        ok := UnloadChunkLocked(c);
        UnloadedTwice(env, old(Value()), gone, {c});
        assert Elements(victims[..k + 1]) == gone + {c};
        gone := gone + {c};
        k := k + 1;
      }
      assert victims[..|victims|] == victims;
    }

    /** `do_cleanup` without interference: it terminates; it unloads only chunks that were old enough and no more
        recently used than as many old enough chunks that are kept; and it stops when few chunks, or few old enough
        chunks, are left, or when a chunk was lost. */
    method DoCleanup() returns (ok: bool, ghost gone: set<ChunkCoordinate>, ghost kept: set<ChunkCoordinate>)
      requires Valid()
      modifies this
      ensures Valid() && Value() == Unloaded(env, old(Value()), gone)
      ensures Cleaned(old(lastAccessed), lastAccessed, clock, gone, kept)
      ensures ok <==> !AnyFails(env, old(Value()), gone)
      ensures ok ==> |liveChunks| <= KEEP_N_RECENTLY_USED || |Aged(lastAccessed, clock)| <= KEEP_N_RECENTLY_USED
    {
      hide Unloaded, Settled, ValidEnv, MostRecent, Aged, Cleaned, Fails;
      ok, gone, kept := true, {}, {};
      UnloadNone(env, Value());
      NothingCleaned(lastAccessed, clock);
      var more := true;
      while more && ok
        invariant Valid() && Value() == Unloaded(env, old(Value()), gone)
        invariant Cleaned(old(lastAccessed), lastAccessed, clock, gone, kept)
        invariant ok <==> !AnyFails(env, old(Value()), gone)
        invariant ok && !more ==>
                    |liveChunks| <= KEEP_N_RECENTLY_USED || |Aged(lastAccessed, clock)| <= KEEP_N_RECENTLY_USED
        decreases ok, more, |lastAccessed.Keys|
      {
        ghost var before, then_, was := lastAccessed, clock, Value();
        ghost var nowGone, nowKept;
        ok, more, nowGone, nowKept := CleanupRound();
        UnloadedKeys(env, old(Value()), gone);
        AgedAreKnown(before, clock);
        UnloadedTwice(env, old(Value()), gone, nowGone);
        CleanedMore(old(lastAccessed), before, then_, clock, gone, kept, nowGone, nowKept);
        AgedAfter(before, nowGone, clock);
        kept := if nowGone == {} then kept else nowKept;
        gone := gone + nowGone;
      }
    }
  }

  /** `mutate_block_atomically` of a chunk. */
  method MutatedChunk(chunk: LiveChunk, i: BlockIndex, mutator: Mutator) returns (chunk': LiveChunk)
    requires chunk.contents.Valid()
    ensures chunk' == EditChunk(chunk, i, Mutate(mutator)) && chunk'.contents.Valid()
  {
    var inPlace := new MapChunk(chunk);
    inPlace.MutateBlockAtomically(i, mutator);
    chunk' := LiveChunk(Contents(inPlace.blockIds[..], inPlace.extendedData), inPlace.dirty);
  }

  // ----- gathering -------------------------------------------------------------------------------------------------

  function Reversed(s: seq<ChunkCoordinate>): seq<ChunkCoordinate> {
    seq(|s|, i requires 0 <= i < |s| => s[|s| - 1 - i])
  }

  /** The end of `gather`: the received coordinates, each once, in the order of last occurrence. */
  method Deduplicated(received: seq<ChunkCoordinate>) returns (dedup: seq<ChunkCoordinate>)
    ensures dedup == KeepLast(received)
  {
    var entries := Reversed(received);
    dedup := [];
    var seen := {};
    for k := 0 to |entries|
      invariant seen == Elements(received[|received| - k..])
      invariant Reversed(dedup) == KeepLast(received[|received| - k..])
    {
      var entry := entries[k];
      ghost var rest := received[|received| - k - 1..];
      assert rest[0] == entry && rest[1..] == received[|received| - k..];
      if entry !in seen {
        ReversedSnoc(dedup, entry);
        dedup := dedup + [entry];
        seen := seen + {entry};
      }
    }
    assert received[0..] == received;
    dedup := Reversed(dedup);
  }

  lemma ReversedSnoc(s: seq<ChunkCoordinate>, c: ChunkCoordinate)
    ensures Reversed(s + [c]) == [c] + Reversed(s)
  {
  }

  // ----- lemmas on eviction ----------------------------------------------------------------------------------------

  /** The chunks that were not used for long enough. */
  function Aged(lastAccessed: map<ChunkCoordinate, nat>, now: nat): set<ChunkCoordinate> {
    set c | c in lastAccessed && now - lastAccessed[c] >= CACHE_CLEAN_MIN_AGE
  }

  /** `kept` holds the most recently used of `aged`. */
  predicate MostRecent(lastAccessed: map<ChunkCoordinate, nat>, aged: set<ChunkCoordinate>, kept: set<ChunkCoordinate>)
    requires aged <= lastAccessed.Keys
  {
    && |kept| == KEEP_N_RECENTLY_USED && kept <= aged
    && forall k, c :: k in kept && c in aged && c !in kept ==> lastAccessed[c] <= lastAccessed[k]
  }

  predicate NoOlder(lastAccessed: map<ChunkCoordinate, nat>, kept: set<ChunkCoordinate>, gone: set<ChunkCoordinate>)
    requires kept <= lastAccessed.Keys && gone <= lastAccessed.Keys
  {
    forall k, c :: k in kept && c in gone ==> lastAccessed[c] <= lastAccessed[k]
  }

  lemma {:induction false} MostRecentExists(lastAccessed: map<ChunkCoordinate, nat>, rest: set<ChunkCoordinate>)
    requires rest <= lastAccessed.Keys && rest != {}
    ensures exists c :: c in rest && forall d :: d in rest ==> lastAccessed[d] <= lastAccessed[c]
    decreases |rest|
  {
    var c :| c in rest;
    if rest != {c} {
      MostRecentExists(lastAccessed, rest - {c});
      var m :| m in rest - {c} && forall d :: d in rest - {c} ==> lastAccessed[d] <= lastAccessed[m];
      var most := if lastAccessed[m] <= lastAccessed[c] then c else m;
      assert forall d :: d in rest ==> d == c || d in rest - {c};
      assert most in rest;
    }
  }

  predicate ByRecency(lastAccessed: map<ChunkCoordinate, nat>, s: seq<ChunkCoordinate>) {
    && (forall i :: 0 <= i < |s| ==> s[i] in lastAccessed)
    && forall i, j :: 0 <= i < j < |s| ==> lastAccessed[s[j]] <= lastAccessed[s[i]]
  }

  predicate NoneNewer(lastAccessed: map<ChunkCoordinate, nat>, s: seq<ChunkCoordinate>, rest: set<ChunkCoordinate>) {
    forall i, c :: 0 <= i < |s| && c in rest && s[i] in lastAccessed && c in lastAccessed ==>
      lastAccessed[c] <= lastAccessed[s[i]]
  }

  lemma NothingSorted(lastAccessed: map<ChunkCoordinate, nat>, rest: set<ChunkCoordinate>)
    ensures Elements<ChunkCoordinate>([]) == {} && Distinct<ChunkCoordinate>([])
    ensures ByRecency(lastAccessed, []) && NoneNewer(lastAccessed, [], rest)
  {
  }

  lemma SortedWithNext(
    lastAccessed: map<ChunkCoordinate, nat>, s: seq<ChunkCoordinate>, c: ChunkCoordinate, rest: set<ChunkCoordinate>)
    requires ByRecency(lastAccessed, s) && NoneNewer(lastAccessed, s, rest) && Distinct(s)
    requires c in rest && rest <= lastAccessed.Keys && Elements(s) !! rest
    requires forall d :: d in rest ==> lastAccessed[d] <= lastAccessed[c]
    ensures ByRecency(lastAccessed, s + [c]) && NoneNewer(lastAccessed, s + [c], rest - {c})
    ensures Distinct(s + [c]) && Elements(s + [c]) == Elements(s) + {c}
  {
  }

  lemma TopIsMostRecent(lastAccessed: map<ChunkCoordinate, nat>, entries: seq<ChunkCoordinate>, n: nat)
    requires n == KEEP_N_RECENTLY_USED && n <= |entries|
    requires Elements(entries) <= lastAccessed.Keys && Distinct(entries)
    requires ByRecency(lastAccessed, entries)
    ensures MostRecent(lastAccessed, Elements(entries), Elements(entries[..n]))
  {
    DistinctSize(entries[..n]);
  }

  /** The most recent of later are at least as recent as those kept before. */
  lemma NewerTop(
    lastAccessed: map<ChunkCoordinate, nat>, gone: set<ChunkCoordinate>, aged: set<ChunkCoordinate>,
    top: set<ChunkCoordinate>, kept: set<ChunkCoordinate>)
    requires gone <= lastAccessed.Keys && aged <= (lastAccessed - gone).Keys
    requires MostRecent(lastAccessed - gone, aged, top)
    requires kept <= aged && |kept| == KEEP_N_RECENTLY_USED && NoOlder(lastAccessed, kept, gone)
    ensures NoOlder(lastAccessed, top, gone)
  {
    forall k, c | k in top && c in gone ensures lastAccessed[c] <= lastAccessed[k] {
      if lastAccessed[k] < lastAccessed[c] {
        forall d | d in kept ensures d in top - {k} {
          assert lastAccessed[c] <= lastAccessed[d];
        }
        SubsetSize(kept, top - {k});
      }
    }
  }

  /** What a cleanup leaves: it took only old enough chunks, each no more recently used than as many old enough chunks
      that are still there. */
  predicate Cleaned(
    before: map<ChunkCoordinate, nat>, after: map<ChunkCoordinate, nat>, now: nat,
    gone: set<ChunkCoordinate>, kept: set<ChunkCoordinate>)
  {
    && after == before - gone
    && gone <= Aged(before, now)
    && (gone != {} ==>
          && |kept| == KEEP_N_RECENTLY_USED && kept <= Aged(after, now)
          && NoOlder(before, kept, gone))
  }

  lemma NothingCleaned(lastAccessed: map<ChunkCoordinate, nat>, now: nat)
    ensures Cleaned(lastAccessed, lastAccessed, now, {}, {})
  {
    assert lastAccessed - {} == lastAccessed;
  }

  lemma CleanedMore(
    first: map<ChunkCoordinate, nat>, before: map<ChunkCoordinate, nat>, earlier: nat, now: nat,
    gone: set<ChunkCoordinate>, kept: set<ChunkCoordinate>,
    nowGone: set<ChunkCoordinate>, nowKept: set<ChunkCoordinate>)
    requires Cleaned(first, before, earlier, gone, kept) && earlier <= now
    requires nowGone <= Aged(before, now) <= before.Keys
    requires nowGone != {} ==> MostRecent(before, Aged(before, now), nowKept) && nowKept !! nowGone
    ensures Cleaned(first, before - nowGone, now, gone + nowGone, if nowGone == {} then kept else nowKept)
  {
    assert before - nowGone == first - (gone + nowGone);
    assert gone + {} == gone;
    if nowGone != {} && gone != {} {
      NewerTop(first, gone, Aged(before, now), nowKept, kept);
    }
  }

  lemma AgedAfter(lastAccessed: map<ChunkCoordinate, nat>, gone: set<ChunkCoordinate>, now: nat)
    requires gone <= Aged(lastAccessed, now)
    ensures Aged(lastAccessed - gone, now) == Aged(lastAccessed, now) - gone
    ensures |Aged(lastAccessed - gone, now)| == |Aged(lastAccessed, now)| - |gone|
    ensures |(lastAccessed - gone).Keys| == |lastAccessed.Keys| - |gone|
  {
    assert Aged(lastAccessed - gone, now) == Aged(lastAccessed, now) - gone;
    assert (lastAccessed - gone).Keys == lastAccessed.Keys - gone;
    DifferenceSize(Aged(lastAccessed, now), gone);
    DifferenceSize(lastAccessed.Keys, gone);
  }

  lemma DifferenceSize(a: set<ChunkCoordinate>, b: set<ChunkCoordinate>)
    requires b <= a
    ensures |a - b| == |a| - |b|
  {
    assert a == (a - b) + b;
  }

  lemma UnloadNone(env: Env, s: Store)
    ensures Unloaded(env, s, {}) == s
  {
    assert s.live - {} == s.live && Unloaded(env, s, {}).unsaved == s.unsaved;
    assert Unloaded(env, s, {}).db == s.db;
  }

  lemma WrittenOne(env: Env, s: Store, c: ChunkCoordinate)
    ensures s.db + Written(env, s, {c}) ==
            if IsDirty(s, c) && Writable(env, s.live[c])
            then s.db[c := Serialized(env.defs, s.live[c].chunk.contents).value] else s.db
  {
    hide Serialized;
  }

  lemma UnloadAll(env: Env, s: Store)
    ensures Unloaded(env, s, s.live.Keys).live == map[]
  {
  }

  lemma UnloadedKeys(env: Env, s: Store, gone: set<ChunkCoordinate>)
    ensures Unloaded(env, s, gone).live.Keys == s.live.Keys - gone
  {
  }

  /** Unloading in two goes is unloading all at once, and the same chunks are lost. */
  lemma UnloadedTwice(env: Env, s: Store, first: set<ChunkCoordinate>, second: set<ChunkCoordinate>)
    requires first !! second
    ensures Unloaded(env, Unloaded(env, s, first), second) == Unloaded(env, s, first + second)
    ensures forall c :: c in second ==> (Fails(env, Unloaded(env, s, first), c) <==> Fails(env, s, c))
    ensures AnyFails(env, s, first + second) <==>
            AnyFails(env, s, first) || AnyFails(env, Unloaded(env, s, first), second)
  {
    hide Writable, Serialized;
    var mid := Unloaded(env, s, first);
    forall c | c !in first ensures c in mid.live <==> c in s.live { }
    WrittenTwice(env, s, mid, first, second);
    hide Written;
    assert s.live - first - second == s.live - (first + second);
    assert Unloaded(env, mid, second).unsaved == Unloaded(env, s, first + second).unsaved;
    assert s.db + Written(env, s, first) + Written(env, mid, second)
        == s.db + (Written(env, s, first) + Written(env, mid, second));
  }

  lemma WrittenTwice(env: Env, s: Store, mid: Store, first: set<ChunkCoordinate>, second: set<ChunkCoordinate>)
    requires mid.live == s.live - first
    ensures Written(env, s, first) + Written(env, mid, second) == Written(env, s, first + second)
  {
    hide Serialized, Writable;
  }

  /** A chunk of a batch is in the database as it is in memory, and clean, with no edit of it unsaved; what is not in
      the batch or not in memory is as before. */
  ghost predicate IsWrittenBack(env: Env, was: Store, now: Store, batch: seq<ChunkCoordinate>, c: ChunkCoordinate)
  {
    && now.live.Keys == was.live.Keys && now.history == was.history && now.queue == was.queue
    && if c in batch && c in was.live then
         && Writable(env, was.live[c]) && now.live[c] == Filled(LiveChunk(was.live[c].chunk.contents, false))
         && c in now.db && now.db[c] == Serialized(env.defs, was.live[c].chunk.contents).value
         && c !in now.unsaved
       else
         && (c in was.live ==> now.live[c] == was.live[c])
         && (c in now.db <==> c in was.db) && (c in was.db ==> now.db[c] == was.db[c])
         && (c in now.unsaved <==> c in was.unsaved)
  }

  /** A batch is written as a whole exactly if each of its chunks that are in memory can be written. */
  lemma {:induction false} WritesAllBack(env: Env, s: Store, batch: seq<ChunkCoordinate>)
    ensures var (r, ok) := AllWrittenBack(env, s, batch);
      && (ok <==> forall c :: c in batch && c in s.live ==> Writable(env, s.live[c]))
      && (ok ==> forall c :: IsWrittenBack(env, s, r, batch, c))
    decreases |batch|
  {
    hide Serialized;
    if batch != [] {
      var n := |batch| - 1;
      WritesAllBack(env, s, batch[..n]);
      assert batch == batch[..n] + [batch[n]];
      var (r, ok) := AllWrittenBack(env, s, batch[..n]);
      if ok {
        assert IsWrittenBack(env, s, r, batch[..n], batch[n]);
        forall c | WritesBack(env, r, batch[n])
          ensures IsWrittenBack(env, s, WrittenBack(env, r, batch[n]), batch, c)
        {
          assert IsWrittenBack(env, s, r, batch[..n], c);
        }
      }
    }
  }

  lemma StopsThere(env: Env, s: Store, batch: seq<ChunkCoordinate>, k: nat)
    requires k < |batch| && AllWrittenBack(env, s, batch[..k]).1
    requires !WritesBack(env, AllWrittenBack(env, s, batch[..k]).0, batch[k])
    ensures AllWrittenBack(env, s, batch) == (AllWrittenBack(env, s, batch[..k]).0, false)
    decreases |batch|
  {
    hide WritesBack, WrittenBack;
    if k < |batch| - 1 {
      var front := batch[..|batch| - 1];
      assert front[..k] == batch[..k];
      StopsThere(env, s, front, k);
    }
  }

  lemma ParsedIsValid(env: Env)
    ensures forall v: ChunkV1 :: Parsed(env.defs, v).Ok? ==> Parsed(env.defs, v).value.Valid()
  {
  }

  lemma AgedAreKnown(lastAccessed: map<ChunkCoordinate, nat>, now: nat)
    ensures Aged(lastAccessed, now) <= lastAccessed.Keys
  {
  }

  lemma SetSame(c: Contents, i: BlockIndex)
    requires c.Valid()
    ensures c.Set(i, c.Get(i)) == c
  {
    SameCells(c.Set(i, c.Get(i)), c);
  }

  /** What each access leaves, told from what was asked for: the block as it was, the new block, the new block if the
      old one matched, or id and data as the mutator gave them. Without its chunk, it leaves a failed holder. */
  lemma AccessLeaves(env: Env, s: Store, b: BlockCoordinate, e: Edit, open: bool)
    requires CanLoad(env, s)
    ensures Loadable(env, s, ChunkOf(b), open) ==> Current(env, s, ChunkOf(b)).Valid()
    ensures CanLoad(env, AfterEdit(env, s, b, e, open))
    ensures var s', c := AfterEdit(env, s, b, e, open), ChunkOf(b);
      && (s'.live[c].Filled? <==> Loadable(env, s, c, open))
      && (!Loadable(env, s, c, open) ==> s' == s.(live := s.live[c := Failed]))
      && (Loadable(env, s, c, open) ==>
            var found := FoundAt(env, s, b);
            && s'.history == s.history + [Event(b, e, found)]
            && match e
               case Get => Leaves(env, s, s', b, e, found, false, false, open)
               case Set(cell) => Leaves(env, s, s', b, e, cell, true, true, open)
               case CompareAndSet(matches, cell) =>
                 Leaves(env, s, s', b, e, if matches(found) then cell else found, matches(found), matches(found), open)
               case Mutate(mutator) =>
                 Leaves(env, s, s', b, e, mutator(found).cell,
                        mutator(found).cell.id != found.id || mutator(found).setDirty, IsDirty(s', c), open))
  {
    hide ChunkOf, IndexOf, Parsed, WithChunk, Loadable, Current;
    var c, i := ChunkOf(b), IndexOf(b);
    LoadFinds(env, s, c, open);
    if Loadable(env, s, c, open) {
      var found := FoundAt(env, s, b);
      forall j: BlockIndex
        ensures Current(env, s, c).Set(i, After(e, found)).Get(j) ==
                if j == i then After(e, found) else Current(env, s, c).Get(j)
      {
        GetAfterSet(Current(env, s, c), i, After(e, found), j);
      }
    }
  }

  /** An access that changes nothing is only remembered. */
  lemma EditedSame(s: Store, b: BlockCoordinate, e: Edit, open: bool)
    requires ChunkOf(b) in s.live && s.live[ChunkOf(b)].IsValid()
    ensures var found := s.live[ChunkOf(b)].chunk.contents.Get(IndexOf(b));
      e.Get? || (e.CompareAndSet? && !e.matches(found)) ==>
        EditedIn(s, b, e, open) == s.(history := s.history + [Event(b, e, found)])
  {
    hide ChunkOf, IndexOf;
    SetSame(s.live[ChunkOf(b)].chunk.contents, IndexOf(b));
  }

  lemma NothingToMutate(s: Store, b: BlockCoordinate, mutator: Mutator, open: bool)
    requires ChunkOf(b) in s.live && !s.live[ChunkOf(b)].Filled?
    ensures EditedIn(s, b, Mutate(mutator), open) == s
  {
  }

  lemma LoadFinds(env: Env, s: Store, c: ChunkCoordinate, open: bool)
    requires CanLoad(env, s)
    ensures var s' := WithChunk(env, s, c, open);
      var generated := c !in s.live && c !in s.db;
      && c in s'.live
      && (!Loadable(env, s, c, open) ==> s' == s.(live := s.live[c := Failed]))
      && (Loadable(env, s, c, open) ==>
            && Current(env, s, c).Valid()
            && s'.live[c] == Filled(LiveChunk(Current(env, s, c), generated || IsDirty(s, c)))
            && s' == s.(live := s'.live, queue := s.queue + if generated then [c] else [])
            && (forall d :: d != c ==> (d in s'.live <==> d in s.live))
            && (forall d :: d != c && d in s.live ==> s'.live[d] == s.live[d]))
  {
    hide Parsed;
    ParsedIsValid(env);
  }

  // ----- what is observed ------------------------------------------------------------------------------------------

  /** Chunks of the map are always written and read back: no unloading loses one, no writeback fails, and no load fails
      but that of a chunk which has to be generated when requests for writebacks are refused. */
  lemma GoodNeverFails(env: Env, s: Store, c: ChunkCoordinate, open: bool)
    requires GoodEnv(env) && GoodStore(env, s)
    ensures !Fails(env, s, c) && WritesBack(env, s, c)
    ensures c in WithChunk(env, s, c, open).live
    ensures WithChunk(env, s, c, open).live[c].Filled? <==> open || c in s.live || c in s.db
  {
    hide GoodContents, Serialized, Parsed;
    assert ChunkData(env, s, c);
    if c in s.live { SavedLooksSame(env, c, s.live[c].chunk.contents); }
  }

  /** Loading a chunk shows nothing; not even when it fails. */
  lemma LoadingShowsNothing(env: Env, s: Store, c: ChunkCoordinate, open: bool, d: ChunkCoordinate)
    requires GoodEnv(env) && GoodStore(env, s)
    ensures Current(env, WithChunk(env, s, c, open), d) == Current(env, s, d)
    ensures WithChunk(env, s, c, open).live[c].Filled? ==> GoodStore(env, WithChunk(env, s, c, open))
  {
    hide GoodContents, Parsed;
    var s' := WithChunk(env, s, c, open);
    GoodAreValid(env);
    forall k: ChunkCoordinate ensures ChunkData(env, s', k) {
      assert ChunkData(env, s, k);
      if k == c && c in s.db { SameItself(env, c, Decoded(env, s.db[c])); }
    }
  }

  lemma SameItself(env: Env, c: ChunkCoordinate, k: Contents)
    requires k.Valid()
    ensures Same(env, c, k, k)
  {
  }

  lemma GoodAreValid(env: Env)
    ensures forall c, k :: GoodContents(env, c, k) ==> k.Valid()
  {
  }

  /** An edit shows at its own block, and nowhere else, whether or not its writeback is refused; if the chunk cannot be
      generated, nothing changes. */
  lemma EditShowsAtItsBlock(env: Env, s: Store, b: BlockCoordinate, e: Edit, open: bool, at: BlockCoordinate)
    requires GoodEnv(env) && GoodStore(env, s)
    requires KeepsRules(env, ChunkOf(b), IndexOf(b), e, Current(env, s, ChunkOf(b)).Get(IndexOf(b)))
    ensures var s', c := AfterEdit(env, s, b, e, open), ChunkOf(b);
      && (s'.live[c].Filled? <==> open || c in s.live || c in s.db)
      && (s'.live[c].Filled? ==> GoodStore(env, s'))
      && Current(env, s', ChunkOf(at)).Valid()
      && CellAt(env, s', at) ==
           if s'.live[c].Filled? && at == b
           then Observed(env, b, After(e, Current(env, s, c).Get(IndexOf(b))))
           else CellAt(env, s, at)
  {
    hide GoodContents, ChunkOf, IndexOf, EditedIn, KeepsRules, Parsed, Same, WithChunk, ChunkData;
    GoodAreValid(env);
    var c := ChunkOf(b);
    GoodNeverFails(env, s, c, open);
    LoadingShowsNothing(env, s, c, open, c);
    LoadingShowsNothing(env, s, c, open, ChunkOf(at));
    EditInShows(env, WithChunk(env, s, c, open), b, e, open, at);
  }

  lemma EditInShows(env: Env, s: Store, b: BlockCoordinate, e: Edit, open: bool, at: BlockCoordinate)
    requires GoodEnv(env) && ChunkOf(b) in s.live && (s.live[ChunkOf(b)].Filled? ==> GoodStore(env, s))
    requires Current(env, s, ChunkOf(b)).Valid() && Current(env, s, ChunkOf(at)).Valid()
    requires KeepsRules(env, ChunkOf(b), IndexOf(b), e, Current(env, s, ChunkOf(b)).Get(IndexOf(b)))
    ensures s.live[ChunkOf(b)].Filled? ==> s.live[ChunkOf(b)].IsValid()
    ensures var s', filled := EditedIn(s, b, e, open), s.live[ChunkOf(b)].Filled?;
      && (s'.live[ChunkOf(b)].Filled? <==> filled) && (filled ==> GoodStore(env, s'))
      && Current(env, s', ChunkOf(at)).Valid()
      && CellAt(env, s', at) ==
           if filled && at == b then Observed(env, b, After(e, Current(env, s, ChunkOf(b)).Get(IndexOf(b))))
           else CellAt(env, s, at)
  {
    hide GoodContents, ChunkOf, IndexOf, EditChunk, KeepsRules, MarksDirty, Enqueues, Parsed, Same, GoodEnv;
    GoodAreValid(env);
    var c := ChunkOf(b);
    if s.live[c].Filled? {
      var s' := EditedIn(s, b, e, open);
      assert ChunkData(env, s, c);
      EditedKeepsData(env, s, c, IndexOf(b), e);
      if ChunkOf(at) == c {
        EditedCell(s.live[c].chunk, b, e, at);
      }
      forall k: ChunkCoordinate ensures ChunkData(env, s', k) {
        assert ChunkData(env, s, k);
      }
    }
  }

  /** An edited chunk is still a chunk of the map, and agrees with the database if it is still clean. */
  lemma EditedKeepsData(env: Env, s: Store, c: ChunkCoordinate, i: BlockIndex, e: Edit)
    requires c in s.live && s.live[c].Filled? && ChunkData(env, s, c)
    requires s.live[c].chunk.contents.Valid() && KeepsRules(env, c, i, e, s.live[c].chunk.contents.Get(i))
    ensures var after := EditChunk(s.live[c].chunk, i, e);
      && GoodContents(env, c, after.contents)
      && (!after.dirty ==> c in s.db && Same(env, c, Decoded(env, s.db[c]), after.contents))
  {
    hide GoodContents, EditChunk, KeepsRules;
    EditedContents(env, c, s.live[c].chunk, i, e);
  }

  /** Unloading chunks, as the cleanup and the flush do, shows nowhere. */
  lemma UnloadingShowsNothing(env: Env, s: Store, gone: set<ChunkCoordinate>, at: BlockCoordinate)
    requires GoodEnv(env) && GoodStore(env, s)
    ensures GoodStore(env, Unloaded(env, s, gone))
    ensures CellAt(env, Unloaded(env, s, gone), at) == CellAt(env, s, at)
  {
    hide GoodContents, ChunkOf, IndexOf, SavedForm, Serialized, Parsed;
    GoodAreValid(env);
    var s' := Unloaded(env, s, gone);
    forall k: ChunkCoordinate
      ensures ChunkData(env, s', k) && Same(env, k, Current(env, s', k), Current(env, s, k))
      ensures k in s'.db ==> Parsed(env.defs, s'.db[k]).Ok? && GoodContents(env, k, Decoded(env, s'.db[k]))
    {
      assert ChunkData(env, s, k);
      if k in s.live { SavedLooksSame(env, k, s.live[k].chunk.contents); }
    }
  }
}
