/** The map's operations, one at a time, are runs of the cache protocol; so all that holds in every reachable state of
    the protocol holds between them (cuberef_server/src/game_state/game_map.rs). */
module MapOperations {
  import opened Wrappers
  import opened Coordinates
  import opened MapChunks
  import opened ChunkStorage
  import opened MapProtocol
  import opened GameMap

  ghost predicate Reachable(env: Env, from: Server, to: Server) {
    exists steps :: Runs(env, from, steps) && AfterRun(env, from, steps) == to
  }

  lemma {:induction false} RunAppend(env: Env, s: Server, steps: seq<Step>, next: Step)
    requires Runs(env, s, steps)
    requires Enabled(env, AfterRun(env, s, steps), next) && Allowed(env, AfterRun(env, s, steps), next)
    ensures Runs(env, s, steps + [next])
    ensures AfterRun(env, s, steps + [next]) == Do(env, AfterRun(env, s, steps), next)
    decreases |steps|
  {
    hide Enabled, Allowed, Do;
    if steps != [] {
      RunAppend(env, Do(env, s, steps[0]), steps[1..], next);
      assert (steps + [next])[1..] == steps[1..] + [next];
    }
  }

  lemma ReachItself(env: Env, s: Server)
    ensures Reachable(env, s, s)
  {
    assert Runs(env, s, []);
  }

  lemma ReachNext(env: Env, from: Server, s: Server, next: Step)
    requires Reachable(env, from, s) && Enabled(env, s, next) && Allowed(env, s, next)
    ensures Reachable(env, from, Do(env, s, next))
  {
    hide Enabled, Allowed, Do, Runs, AfterRun;
    var steps :| Runs(env, from, steps) && AfterRun(env, from, steps) == s;
    RunAppend(env, from, steps, next);
  }

  lemma {:induction false} RunConcat(env: Env, s: Server, a: seq<Step>, b: seq<Step>)
    requires Runs(env, s, a) && Runs(env, AfterRun(env, s, a), b)
    ensures Runs(env, s, a + b) && AfterRun(env, s, a + b) == AfterRun(env, AfterRun(env, s, a), b)
    decreases |a|
  {
    hide Enabled, Allowed, Do;
    if a == [] {
      assert a + b == b;
    } else {
      assert (a + b)[1..] == a[1..] + b;
      RunConcat(env, Do(env, s, a[0]), a[1..], b);
    }
  }

  lemma ReachThrough(env: Env, from: Server, s: Server, to: Server)
    requires Reachable(env, from, s) && Reachable(env, s, to)
    ensures Reachable(env, from, to)
  {
    hide Runs, AfterRun;
    var a :| Runs(env, from, a) && AfterRun(env, from, a) == s;
    var b :| Runs(env, s, b) && AfterRun(env, s, b) == to;
    RunConcat(env, from, a, b);
  }

  /** Whether requests for writebacks are accepted. */
  predicate Open(s: Server) { !PhaseOf(s, WRITEBACK).Stopped? }

  /** The thread is not in the map; the writeback thread may be gone for good. */
  predicate IsOut(s: Server, t: Tid) { PhaseOf(s, t).Idle? || (t == WRITEBACK && PhaseOf(s, t).Stopped?) }

  /** All threads but one are out, and it holds the locks that its phase says. */
  ghost predicate Alone(s: Server, t: Tid) {
    && s.locks == LocksFor(t, PhaseOf(s, t))
    && (forall u: Tid :: u != t ==> IsOut(s, u))
    && (PhaseOf(s, t).WritingBack? || PhaseOf(s, t).Stopped? ==> t == WRITEBACK)
  }

  function LocksFor(t: Tid, p: Phase): Locks {
    Locks(if HoldsRead(p) then {t} else {},
          if HoldsWrite(p) then Some(t) else None,
          if HoldsMutex(p) then map[p.r.Chunk() := t] else map[])
  }

  /** No thread is in the map. */
  ghost predicate Quiet(s: Server) {
    s.locks == Locks({}, None, map[]) && forall u: Tid :: IsOut(s, u)
  }

  lemma LocksAlone(t: Tid, p: Phase, s: Store, a: Action)
    requires InPhase(t, p, a)
    ensures LocksAllow(LocksFor(t, p), s, p, a)
  {
  }

  lemma LocksAloneAfter(env: Env, t: Tid, p: Phase, s: Store, a: Action)
    requires InPhase(t, p, a) && StoreAllows(env, s, p, a)
    ensures NextLocks(LocksFor(t, p), t, p, a) == LocksFor(t, NextPhase(env, s, t, p, a))
    ensures NextPhase(env, s, t, p, a).WritingBack? || NextPhase(env, s, t, p, a).Stopped? ==>
              p.WritingBack? || p.Stopped? || t == WRITEBACK
  {
    hide ChunkOf, EditChunkOf, Found, Enqueues;
  }

  /** A lone thread is never blocked by a lock. */
  lemma Solo(env: Env, from: Server, s: Server, t: Tid, a: Action) returns (s': Server)
    requires Reachable(env, from, s) && Alone(s, t)
    requires InPhase(t, PhaseOf(s, t), a) && StoreAllows(env, s.store, PhaseOf(s, t), a)
    requires a.Generate? || a.Enqueue? ==> Open(s)
    requires a.Refused? ==> !Open(s)
    requires a.DoEdit? ==>
      var r := PhaseOf(s, t).r; KeepsRules(env, r.Chunk(), IndexOf(r.block), r.edit, Found(s.store, r))
    ensures Reachable(env, from, s') && Alone(s', t)
    ensures t != WRITEBACK ==> (Open(s') <==> Open(s))
    ensures PhaseOf(s', t) == NextPhase(env, s.store, t, PhaseOf(s, t), a)
    ensures s'.store == NextStore(env, s.store, t, PhaseOf(s, t), a)
  {
    hide Reachable, LocksFor, LocksAllow, NextLocks, NextPhase, NextStore, StoreAllows, KeepsRules, ChunkOf, IndexOf;
    LocksAlone(t, PhaseOf(s, t), s.store, a);
    LocksAloneAfter(env, t, PhaseOf(s, t), s.store, a);
    var next := Step(t, a);
    s' := Do(env, s, next);
    assert PhaseOf(s', t) == NextPhase(env, s.store, t, PhaseOf(s, t), a);
    assert s'.locks == LocksFor(t, PhaseOf(s', t));
    assert forall u: Tid :: u != t ==> IsOut(s, u) && PhaseOf(s', u) == PhaseOf(s, u);
    assert PhaseOf(s', t).WritingBack? || PhaseOf(s', t).Stopped? ==> t == WRITEBACK;
    ReachNext(env, from, s, next);
  }

  lemma QuietIsAlone(s: Server, t: Tid)
    ensures IsOut(s, t) ==> (Quiet(s) <==> Alone(s, t))
  {
  }

  // ----- edits -----------------------------------------------------------------------------------------------------

  /** A missing chunk, up to the empty holder under the read lock. */
  lemma InsertIsRun(env: Env, from: Server, s: Server, t: Tid) returns (s': Server)
    requires Reachable(env, from, s) && Alone(s, t) && PhaseOf(s, t).Looking? && t != WRITEBACK
    requires PhaseOf(s, t).r.Chunk() !in s.store.live
    ensures Reachable(env, from, s') && Alone(s', t) && (Open(s') <==> Open(s))
    ensures PhaseOf(s', t) == Loading(PhaseOf(s, t).r)
    ensures s'.store == s.store.(live := s.store.live[PhaseOf(s, t).r.Chunk() := Empty])
  {
    hide Reachable, Alone, Open, ChunkOf, IndexOf;
    s' := Solo(env, from, s, t, LookMiss);
    s' := Solo(env, from, s', t, Upgrade);
    s' := Solo(env, from, s', t, InsertEmpty);
  }

  /** A resident chunk, up to the wait for its mutex, or the end if it has failed. */
  lemma ResidentIsRun(env: Env, from: Server, s: Server, t: Tid) returns (s': Server)
    requires Reachable(env, from, s) && Alone(s, t) && PhaseOf(s, t).Looking? && t != WRITEBACK
    requires var c := PhaseOf(s, t).r.Chunk();
      c in s.store.live && (s.store.live[c].Failed? || s.store.live[c].Filled?)
    ensures Reachable(env, from, s') && Alone(s', t) && (Open(s') <==> Open(s)) && s'.store == s.store
    ensures if s.store.live[PhaseOf(s, t).r.Chunk()].Filled? then PhaseOf(s', t) == Waiting(PhaseOf(s, t).r)
            else PhaseOf(s', t).Idle?
  {
    hide Reachable, Alone, Open, ChunkOf, IndexOf;
    s' := Solo(env, from, s, t, LookHit);
    if s.store.live[PhaseOf(s, t).r.Chunk()].Failed? {
      s' := Solo(env, from, s', t, GiveUp);
    }
  }

  /** The load into an empty holder, or its failure: an unreadable chunk, or no generation without acceptance. */
  lemma FillIsRun(env: Env, from: Server, s: Server, t: Tid) returns (s': Server)
    requires Reachable(env, from, s) && Alone(s, t) && PhaseOf(s, t).Loading? && t != WRITEBACK
    requires Open(s) ==> |s.store.queue| < WRITEBACK_QUEUE_SIZE
    ensures Reachable(env, from, s') && Alone(s', t) && (Open(s') <==> Open(s))
    ensures var c := PhaseOf(s, t).r.Chunk();
      var loaded := WithChunk(env, s.store.(live := s.store.live - {c}), c, Open(s));
      && s'.store == loaded.(live := s.store.live[c := loaded.live[c]])
      && (loaded.live[c].Filled? ==> PhaseOf(s', t) == Waiting(PhaseOf(s, t).r))
      && (!loaded.live[c].Filled? ==> PhaseOf(s', t).Idle?)
  {
    hide Reachable, Alone, Open, ChunkOf, IndexOf, Parsed;
    var c := PhaseOf(s, t).r.Chunk();
    if if c in s.store.db then Parsed(env.defs, s.store.db[c]).Err? else !Open(s) {
      s' := Solo(env, from, s, t, LoadFails);
    } else {
      s' := Solo(env, from, s, t, if c in s.store.db then LoadStored else Generate);
      s' := Solo(env, from, s', t, Fill);
    }
  }

  /** The load of a chunk, up to the moment its holder is filled, or its failure. */
  lemma LoadIsRun(env: Env, from: Server, s: Server, t: Tid) returns (s': Server)
    requires Reachable(env, from, s) && Alone(s, t) && PhaseOf(s, t).Looking? && t != WRITEBACK
    requires CanLoad(env, s.store) && (Open(s) ==> |s.store.queue| < WRITEBACK_QUEUE_SIZE)
    ensures Reachable(env, from, s') && Alone(s', t) && (Open(s') <==> Open(s))
    ensures var c := PhaseOf(s, t).r.Chunk();
      && s'.store == WithChunk(env, s.store, c, Open(s))
      && (s'.store.live[c].Filled? ==> PhaseOf(s', t) == Waiting(PhaseOf(s, t).r))
      && (!s'.store.live[c].Filled? ==> PhaseOf(s', t).Idle?)
  {
    hide Reachable, Alone, Open, ChunkOf, IndexOf, Parsed;
    var c := PhaseOf(s, t).r.Chunk();
    if c in s.store.live {
      s' := ResidentIsRun(env, from, s, t);
    } else {
      s' := InsertIsRun(env, from, s, t);
      assert s.store.live[c := Empty] - {c} == s.store.live;
      assert s'.store.(live := s.store.live) == s.store;
      s' := FillIsRun(env, from, s', t);
      assert s.store.live[c := Empty][c := s'.store.live[c]] == s.store.live[c := s'.store.live[c]];
    }
  }

  /** The edit of a loaded chunk, up to the release of all locks. */
  lemma LockedEditIsRun(env: Env, from: Server, s: Server, t: Tid) returns (s': Server)
    requires Reachable(env, from, s) && Alone(s, t) && t != WRITEBACK
    requires PhaseOf(s, t).Holding? && !PhaseOf(s, t).pending
    requires StoreAllows(env, s.store, PhaseOf(s, t), DoEdit)
    requires Open(s) ==> |s.store.queue| < WRITEBACK_QUEUE_SIZE
    requires var r := PhaseOf(s, t).r; KeepsRules(env, r.Chunk(), IndexOf(r.block), r.edit, Found(s.store, r))
    ensures Reachable(env, from, s') && Alone(s', t) && PhaseOf(s', t).Idle? && (Open(s') <==> Open(s))
    ensures var r, after := PhaseOf(s, t).r, NextStore(env, s.store, t, PhaseOf(s, t), DoEdit);
      s'.store ==
        if Open(s) && Enqueues(r.edit, Found(s.store, r), EditChunkOf(s.store, r).dirty)
        then after.(queue := s.store.queue + [r.Chunk()]) else after
  {
    hide Reachable, Alone, Open, ChunkOf, IndexOf, Found, EditChunkOf, MarksDirty, Enqueues, EditChunk, KeepsRules;
    s' := Solo(env, from, s, t, DoEdit);
    if PhaseOf(s', t).pending {
      s' := Solo(env, from, s', t, if Open(s) then Enqueue else Refused);
    }
    s' := Solo(env, from, s', t, Release);
  }

  /** The same from the wait for the mutex. */
  lemma LoadedEditIsRun(env: Env, from: Server, s: Server, t: Tid) returns (s': Server)
    requires Reachable(env, from, s) && Alone(s, t) && t != WRITEBACK && PhaseOf(s, t).Waiting?
    requires Open(s) ==> |s.store.queue| < WRITEBACK_QUEUE_SIZE
    requires var r := PhaseOf(s, t).r;
      && r.Chunk() in s.store.live && s.store.live[r.Chunk()].IsValid()
      && KeepsRules(env, r.Chunk(), IndexOf(r.block), r.edit, Found(s.store, r))
    ensures Reachable(env, from, s') && Alone(s', t) && PhaseOf(s', t).Idle? && (Open(s') <==> Open(s))
    ensures s'.store == EditedIn(s.store, PhaseOf(s, t).r.block, PhaseOf(s, t).r.edit, Open(s))
  {
    hide Reachable, Alone, Open, ChunkOf, IndexOf, MarksDirty, Enqueues, EditChunk, KeepsRules;
    s' := Solo(env, from, s, t, Lock);
    s' := LockedEditIsRun(env, from, s', t);
  }

  /** The rules asked of an access, on the cell it finds if its chunk can be loaded. */
  predicate AccessKeepsRules(env: Env, s: Store, b: BlockCoordinate, e: Edit, open: bool) {
    var loaded := WithChunk(env, s, ChunkOf(b), open);
    loaded.live[ChunkOf(b)].IsValid() ==>
      KeepsRules(env, ChunkOf(b), IndexOf(b), e, Found(loaded, Request(b, e)))
  }

  /** Each of the four accesses to a block is a run of the protocol, if there is room in the queue; a failed load and a
      refused request too. */
  lemma RoomyEditIsRun(env: Env, from: Server, s: Server, t: Tid, b: BlockCoordinate, e: Edit) returns (s': Server)
    requires Reachable(env, from, s) && Quiet(s) && t != WRITEBACK && CanLoad(env, s.store)
    requires AccessKeepsRules(env, s.store, b, e, Open(s))
    requires Open(s) ==> |s.store.queue| + 2 <= WRITEBACK_QUEUE_SIZE
    ensures Reachable(env, from, s') && Quiet(s') && (Open(s') <==> Open(s))
    ensures s'.store == AfterEdit(env, s.store, b, e, Open(s))
  {
    hide Reachable, Alone, Quiet, Open, ChunkOf, IndexOf, EditedIn, KeepsRules, WithChunk;
    QuietIsIdle(s, t);
    QuietIsAlone(s, t);
    LoadedIsValid(env, s.store, ChunkOf(b), Open(s));
    s' := Solo(env, from, s, t, Begin(Request(b, e)));
    s' := Solo(env, from, s', t, AcquireRead);
    s' := LoadIsRun(env, from, s', t);
    if s'.store.live[ChunkOf(b)].Filled? {
      s' := LoadedEditIsRun(env, from, s', t);
    } else {
      NotEdited(s'.store, b, e, Open(s));
    }
    QuietIsAlone(s', t);
  }

  lemma NotEdited(s: Store, b: BlockCoordinate, e: Edit, open: bool)
    requires ChunkOf(b) in s.live && !s.live[ChunkOf(b)].Filled?
    ensures EditedIn(s, b, e, open) == s
  {
  }

  /** With acceptance a chunk that is generated is queued, once. */
  lemma LoadedIsValid(env: Env, s: Store, c: ChunkCoordinate, open: bool)
    requires CanLoad(env, s)
    ensures var loaded := WithChunk(env, s, c, open);
      && c in loaded.live && (loaded.live[c].Failed? || loaded.live[c].IsValid())
      && |loaded.queue| <= |s.queue| + 1
  {
    hide Parsed;
    ParsedIsValid(env);
  }

  /** The writeback thread takes entries from a queue that is too full for what an access can add. */
  function MakeRoom(s: Store): (r: Store)
    ensures |r.queue| + 2 <= WRITEBACK_QUEUE_SIZE
    ensures r == s.(queue := r.queue, batch := r.batch) && r.batch + r.queue == s.batch + s.queue
    decreases |s.queue|
  {
    if |s.queue| + 2 <= WRITEBACK_QUEUE_SIZE then s
    else MakeRoom(s.(queue := s.queue[1..], batch := s.batch + [s.queue[0]]))
  }

  lemma {:induction false} MakeRoomIsRun(env: Env, from: Server, s: Server) returns (s': Server)
    requires Reachable(env, from, s) && Quiet(s) && Open(s)
    ensures Reachable(env, from, s') && Quiet(s') && Open(s') && s'.store == MakeRoom(s.store)
    decreases |s.store.queue|
  {
    hide Reachable, Alone, Quiet;
    s' := s;
    if |s.store.queue| + 2 > WRITEBACK_QUEUE_SIZE {
      QuietIsIdle(s, WRITEBACK);
      QuietIsAlone(s, WRITEBACK);
      s' := Solo(env, from, s, WRITEBACK, Receive);
      QuietIsAlone(s', WRITEBACK);
      s' := MakeRoomIsRun(env, from, s');
    }
  }

  /** Each of the four accesses to a block is a run of the protocol; a failed load too. When the queue is too full, the
      access waits until the writeback thread has taken entries. */
  lemma EditIsRun(env: Env, s: Server, t: Tid, b: BlockCoordinate, e: Edit) returns (s': Server)
    requires Quiet(s) && Open(s) && t != WRITEBACK && CanLoad(env, s.store)
    requires AccessKeepsRules(env, s.store, b, e, true)
    ensures Reachable(env, s, s') && Quiet(s') && Open(s')
    ensures s'.store == AfterEdit(env, MakeRoom(s.store), b, e, true)
  {
    hide Reachable, Quiet, ChunkOf, IndexOf, KeepsRules, Parsed;
    ReachItself(env, s);
    s' := MakeRoomIsRun(env, s, s);
    s' := RoomyEditIsRun(env, s, s', t, b, e);
  }

  /** The same once the writeback thread has stopped, whatever is left in the queue: the edit is made, and refused. */
  lemma RefusedEditIsRun(env: Env, s: Server, t: Tid, b: BlockCoordinate, e: Edit) returns (s': Server)
    requires Quiet(s) && !Open(s) && t != WRITEBACK && CanLoad(env, s.store)
    requires AccessKeepsRules(env, s.store, b, e, false)
    ensures Reachable(env, s, s') && Quiet(s') && !Open(s')
    ensures s'.store == AfterEdit(env, s.store, b, e, false)
  {
    hide Reachable, Quiet, ChunkOf, IndexOf, KeepsRules, Parsed, AccessKeepsRules;
    ReachItself(env, s);
    s' := RoomyEditIsRun(env, s, s, t, b, e);
  }

  lemma QuietIsIdle(s: Server, t: Tid)
    requires Quiet(s) && (t == WRITEBACK ==> Open(s))
    ensures PhaseOf(s, t).Idle?
  {
    assert IsOut(s, t);
  }

  // ----- eviction --------------------------------------------------------------------------------------------------

  lemma {:induction false} EvictionsAreRun(env: Env, from: Server, s: Server, t: Tid, gone: set<ChunkCoordinate>)
    returns (s': Server)
    requires Reachable(env, from, s) && Alone(s, t) && PhaseOf(s, t).Sweeping? && t != WRITEBACK
    requires Settled(s.store) && gone <= s.store.live.Keys
    ensures Reachable(env, from, s') && Alone(s', t) && PhaseOf(s', t).Sweeping? && (Open(s') <==> Open(s))
    ensures s'.store == Unloaded(env, s.store, gone)
    decreases |gone|
  {
    hide Reachable, Alone, Unloaded;
    if gone == {} {
      UnloadNone(env, s.store);
      s' := s;
    } else {
      var c :| c in gone;
      UnloadedOne(env, s.store, c);
      s' := Solo(env, from, s, t, Evict(c));
      UnloadedTwice(env, s.store, {c}, gone - {c});
      assert {c} + (gone - {c}) == gone;
      s' := EvictionsAreRun(env, from, s', t, gone - {c});
    }
  }

  lemma UnloadedOne(env: Env, s: Store, c: ChunkCoordinate)
    requires Settled(s) && c in s.live
    ensures StoreAllows(env, s, Sweeping, Evict(c))
    ensures Unloaded(env, s, {c}) == NextStore(env, s, 1, Sweeping, Evict(c))
    ensures Unloaded(env, s, {c}).live.Keys == s.live.Keys - {c} && Settled(Unloaded(env, s, {c}))
  {
    hide Serialized;
    assert Unloaded(env, s, {c}).db == NextStore(env, s, 1, Sweeping, Evict(c)).db;
    assert Unloaded(env, s, {c}).unsaved == NextStore(env, s, 1, Sweeping, Evict(c)).unsaved;
  }

  /** Unloading any set of resident chunks, as the cleanup and the flush do, is a run of the protocol; even if some of
      them cannot be written. */
  lemma UnloadIsRun(env: Env, s: Server, t: Tid, gone: set<ChunkCoordinate>) returns (s': Server)
    requires Quiet(s) && t != WRITEBACK && Settled(s.store) && gone <= s.store.live.Keys
    ensures Reachable(env, s, s') && Quiet(s') && s'.store == Unloaded(env, s.store, gone) && (Open(s') <==> Open(s))
  {
    hide Reachable, Alone, Quiet, Unloaded;
    ReachItself(env, s);
    QuietIsIdle(s, t);
    QuietIsAlone(s, t);
    s' := Solo(env, s, s, t, StartSweep);
    s' := EvictionsAreRun(env, s, s', t, gone);
    s' := Solo(env, s, s', t, EndSweep);
    QuietIsAlone(s', t);
  }

  // ----- writeback -------------------------------------------------------------------------------------------------

  lemma WriteNextIsWrittenBack(env: Env, base: Store, s: Store, batch: seq<ChunkCoordinate>, k: nat)
    requires Settled(base) && k < |batch| && AllWrittenBack(env, base, batch[..k]).1
    requires s == AllWrittenBack(env, base, batch[..k]).0.(batch := batch[k..])
    ensures StoreAllows(env, s, WritingBack, if WritesBack(env, s, batch[k]) then WriteNext else WriteFails)
    ensures WritesBack(env, s, batch[k]) ==>
              AllWrittenBack(env, base, batch[..k + 1]).1
              && NextStore(env, s, WRITEBACK, WritingBack, WriteNext)
                 == AllWrittenBack(env, base, batch[..k + 1]).0.(batch := batch[k + 1..])
  {
    hide Serialized;
    assert batch[..k + 1][..k] == batch[..k] && batch[k..][1..] == batch[k + 1..];
  }

  lemma {:induction false} WritebacksAreRun(
    env: Env, from: Server, base: Store, s: Server, batch: seq<ChunkCoordinate>, k: nat)
    returns (s': Server, rest: seq<ChunkCoordinate>)
    requires Settled(base) && k <= |batch| && AllWrittenBack(env, base, batch[..k]).1
    requires s.store == AllWrittenBack(env, base, batch[..k]).0.(batch := batch[k..])
    requires Reachable(env, from, s) && Alone(s, WRITEBACK) && PhaseOf(s, WRITEBACK).WritingBack?
    ensures Reachable(env, from, s') && Alone(s', WRITEBACK)
    ensures s'.store == AllWrittenBack(env, base, batch).0.(batch := rest)
    ensures if AllWrittenBack(env, base, batch).1 then PhaseOf(s', WRITEBACK).WritingBack? && rest == []
            else PhaseOf(s', WRITEBACK).Stopped?
    decreases |batch| - k
  {
    hide Reachable, Alone, AllWrittenBack, Settled, WritesBack;
    s', rest := s, [];
    if k < |batch| {
      WriteNextIsWrittenBack(env, base, s.store, batch, k);
      if WritesBack(env, s.store, batch[k]) {
        s' := Solo(env, from, s, WRITEBACK, WriteNext);
        s', rest := WritebacksAreRun(env, from, base, s', batch, k + 1);
      } else {
        s' := Solo(env, from, s, WRITEBACK, WriteFails);
        rest := batch[k..];
        WritesBackSame(env, AllWrittenBack(env, base, batch[..k]).0, s.store, batch[k]);
        StopsThere(env, base, batch, k);
      }
    } else {
      assert batch[..k] == batch;
    }
  }

  lemma WritesBackSame(env: Env, a: Store, b: Store, c: ChunkCoordinate)
    requires a.live == b.live
    ensures WritesBack(env, a, c) <==> WritesBack(env, b, c)
  {
  }

  /** Writing back the gathered batch is a run of the protocol; an error stops the writeback thread for good. */
  lemma WritebackIsRun(env: Env, s: Server) returns (s': Server)
    requires Quiet(s) && Open(s) && Settled(s.store)
    ensures Reachable(env, s, s') && Quiet(s')
    ensures var (after, ok) := AllWrittenBack(env, s.store, s.store.batch);
      && s'.store.(batch := []) == after.(batch := [])
      && (ok <==> Open(s')) && (ok ==> s'.store.batch == [])
  {
    hide Reachable, Alone, Quiet, Settled;
    ReachItself(env, s);
    QuietIsIdle(s, WRITEBACK);
    QuietIsAlone(s, WRITEBACK);
    s' := Solo(env, s, s, WRITEBACK, StartWriteback);
    var batch := s.store.batch;
    assert batch[0..] == batch && batch[..0] == [];
    ghost var rest;
    s', rest := WritebacksAreRun(env, s, s.store, s', batch, 0);
    if AllWrittenBack(env, s.store, batch).1 {
      s' := Solo(env, s, s', WRITEBACK, EndWriteback);
    }
    QuietIsAlone(s', WRITEBACK);
  }
}
