/** A deadlock of the map: an editor waits for room in the writeback queue, and the writeback thread for the editor's
    chunk (cuberef_server/src/game_state/game_map.rs). */
module MapJam {
  import opened Wrappers
  import opened Coordinates
  import opened MapChunks
  import opened ChunkStorage
  import opened MapProtocol
  import opened GameMap
  import opened MapOperations

  /** The writeback thread is about to write the chunk that a thread has locked, while that thread has to queue it and
      the queue is full. */
  predicate Jammed(s: Server, t: Tid) {
    var p := PhaseOf(s, t);
    && HoldsMutex(p) && p.pending
    && |s.store.queue| >= WRITEBACK_QUEUE_SIZE
    && PhaseOf(s, WRITEBACK).WritingBack? && s.store.batch != [] && s.store.batch[0] == p.r.Chunk()
  }

  /** Whatever any thread does, they stay jammed. */
  lemma JammedForever(env: Env, s: Server, t: Tid, step: Step)
    requires LocksHeld(s) && Enabled(env, s, step) && Jammed(s, t)
    ensures Jammed(Do(env, s, step), t)
  {
    hide ChunkOf, IndexOf, EditChunk, Serialized, Parsed, KeepLast, Enqueues, MarksDirty, Found;
    assert ThreadLocks(s, t) && ThreadLocks(s, step.t);
  }

  /** In every reachable state with an editor that has to queue its chunk and the writeback thread at work: the editor
      cannot go on exactly if the queue is full, the writeback thread cannot exactly if the first chunk of its batch is
      locked; so they block each other exactly if they are jammed. */
  lemma JammedExactly(env: Env, db: map<ChunkCoordinate, ChunkV1>, steps: seq<Step>, t: Tid)
    requires GoodEnv(env) && GoodDb(env, db) && Runs(env, Start(db), steps)
    requires var s := AfterRun(env, Start(db), steps);
      PhaseOf(s, t).Edited? && PhaseOf(s, t).pending && PhaseOf(s, WRITEBACK).WritingBack?
    ensures var s := AfterRun(env, Start(db), steps);
      && !Enabled(env, s, Step(t, Release))
      && (!Enabled(env, s, Step(t, Enqueue)) <==> |s.store.queue| >= WRITEBACK_QUEUE_SIZE)
      && ((forall a: Action :: !Enabled(env, s, Step(WRITEBACK, a))) <==>
            s.store.batch != [] && s.store.batch[0] in s.locks.mutexes)
      && (Jammed(s, t) <==>
            !Enabled(env, s, Step(t, Enqueue))
            && s.store.batch != [] && s.store.batch[0] in s.locks.mutexes && s.locks.mutexes[s.store.batch[0]] == t)
  {
    hide Runs, AfterRun, Refines, DataGood, Requested, Writable, ChunkOf;
    InvariantAtStart(env, db);
    InvariantOverRun(env, Start(db), Start(db), steps);
    var s := AfterRun(env, Start(db), steps);
    EditorBlocked(env, s, t);
    WriterBlocked(env, s);
    if s.store.batch != [] { WhoseMutex(s, t); }
  }

  lemma EditorBlocked(env: Env, s: Server, t: Tid)
    requires PhaseOf(s, t).Edited? && PhaseOf(s, t).pending && !PhaseOf(s, WRITEBACK).Stopped?
    ensures !Enabled(env, s, Step(t, Release))
    ensures !Enabled(env, s, Step(t, Enqueue)) <==> |s.store.queue| >= WRITEBACK_QUEUE_SIZE
    ensures !Enabled(env, s, Step(t, Refused))
  {
  }

  /** The writeback thread at work, of any state whose holders are well-formed. */
  lemma WriterBlocked(env: Env, s: Server)
    requires PhaseOf(s, WRITEBACK).WritingBack?
    ensures (forall a: Action :: !Enabled(env, s, Step(WRITEBACK, a))) <==>
            (s.store.batch != [] && s.store.batch[0] in s.locks.mutexes)
  {
    hide Writable;
    if s.store.batch == [] {
      assert Enabled(env, s, Step(WRITEBACK, EndWriteback));
    } else {
      var c := s.store.batch[0];
      assert c !in s.locks.mutexes ==>
        Enabled(env, s, Step(WRITEBACK, WriteNext)) || Enabled(env, s, Step(WRITEBACK, WriteFails));
    }
  }

  lemma WhoseMutex(s: Server, t: Tid)
    requires LocksHeld(s) && HoldsMutex(PhaseOf(s, t)) && s.store.batch != []
    ensures var c := s.store.batch[0];
      c == PhaseOf(s, t).r.Chunk() <==> c in s.locks.mutexes && s.locks.mutexes[c] == t
  {
    hide ChunkOf;
    assert ThreadLocks(s, t) && MutexOwned(s, s.store.batch[0]);
  }

  // ----- a run into the jam ----------------------------------------------------------------------------------------

  /** One thread is in the map besides the writeback thread, which has begun to write. */
  ghost predicate Beside(s: Server, t: Tid) {
    var p := PhaseOf(s, t);
    && t != WRITEBACK && !HoldsWrite(p)
    && s.locks == Locks({WRITEBACK} + (if HoldsRead(p) then {t} else {}), None,
                        if HoldsMutex(p) then map[p.r.Chunk() := t] else map[])
    && PhaseOf(s, WRITEBACK).WritingBack?
  }

  predicate NeedsNoWrite(a: Action) {
    a.Begin? || a.AcquireRead? || a.LookHit? || a.Lock? || a.DoEdit? || a.Enqueue? || a.Release?
  }

  lemma BesideLocks(env: Env, s: Server, t: Tid, a: Action)
    requires Beside(s, t) && NeedsNoWrite(a)
    requires InPhase(t, PhaseOf(s, t), a) && StoreAllows(env, s.store, PhaseOf(s, t), a)
    ensures Enabled(env, s, Step(t, a)) && Beside(Do(env, s, Step(t, a)), t)
  {
    hide ChunkOf, IndexOf, EditChunkOf, Found, Enqueues, MarksDirty, NextStore;
    var s' := Do(env, s, Step(t, a));
    var p := PhaseOf(s', t);
    assert s'.locks.readers == {WRITEBACK} + (if HoldsRead(p) then {t} else {});
  }

  lemma StepBeside(env: Env, from: Server, s: Server, t: Tid, a: Action) returns (s': Server)
    requires Reachable(env, from, s) && Beside(s, t) && NeedsNoWrite(a)
    requires InPhase(t, PhaseOf(s, t), a) && StoreAllows(env, s.store, PhaseOf(s, t), a)
    requires a.DoEdit? ==>
      var r := PhaseOf(s, t).r; KeepsRules(env, r.Chunk(), IndexOf(r.block), r.edit, Found(s.store, r))
    ensures Reachable(env, from, s') && Beside(s', t)
    ensures PhaseOf(s', t) == NextPhase(env, s.store, t, PhaseOf(s, t), a)
    ensures s'.store == NextStore(env, s.store, t, PhaseOf(s, t), a)
  {
    hide Reachable, LocksAllow, NextLocks, NextPhase, NextStore, StoreAllows, KeepsRules, ChunkOf, IndexOf, Beside;
    BesideLocks(env, s, t, a);
    s' := Do(env, s, Step(t, a));
    ReachNext(env, from, s, Step(t, a));
  }

  /** Placing a plain block keeps the rules and asks for a writeback, whatever was there. */
  lemma PlainBlockKeepsRules(env: Env, c: ChunkCoordinate, i: BlockIndex, id: BlockId, before: Cell, dirty: bool)
    requires SavableSet(env)
    ensures KeepsRules(env, c, i, Set(Cell(id, None)), before)
    ensures Enqueues(Set(Cell(id, None)), before, dirty)
  {
  }

  /** The chunk of a block is in memory, and first in the batch. */
  predicate AboutToWrite(s: Server, b: BlockCoordinate) {
    && ChunkOf(b) in s.store.live && s.store.live[ChunkOf(b)].IsValid()
    && s.store.batch != [] && s.store.batch[0] == ChunkOf(b)
  }

  /** A thread takes the mutex of a block's chunk. */
  lemma LockBeside(env: Env, from: Server, s: Server, t: Tid, r: Request) returns (s': Server)
    requires Reachable(env, from, s) && Beside(s, t) && t != WRITEBACK
    requires PhaseOf(s, t).Idle? && AboutToWrite(s, r.block)
    ensures Reachable(env, from, s') && Beside(s', t) && s'.store == s.store && PhaseOf(s', t) == Holding(r, false)
  {
    hide Reachable, Beside, ChunkOf, IndexOf;
    s' := StepBeside(env, from, s, t, Begin(r));
    s' := StepBeside(env, from, s', t, AcquireRead);
    s' := StepBeside(env, from, s', t, LookHit);
    s' := StepBeside(env, from, s', t, Lock);
  }

  /** It places a block, up to the moment when it has to queue the chunk. */
  lemma PlaceUpToQueue(env: Env, from: Server, s: Server, t: Tid, b: BlockCoordinate, id: BlockId) returns (s': Server)
    requires SavableSet(env) && Reachable(env, from, s) && Beside(s, t) && t != WRITEBACK
    requires PhaseOf(s, t).Idle? && AboutToWrite(s, b)
    ensures Reachable(env, from, s') && Beside(s', t) && AboutToWrite(s', b)
    ensures PhaseOf(s', t) == Edited(Request(b, Set(Cell(id, None))), true) && s'.store.queue == s.store.queue
  {
    hide Reachable, Beside, ChunkOf, IndexOf, MarksDirty, Enqueues, EditChunk, KeepsRules, SavableSet;
    var r, c := Request(b, Set(Cell(id, None))), ChunkOf(b);
    s' := LockBeside(env, from, s, t, r);
    PlainBlockKeepsRules(env, c, IndexOf(b), id, Found(s'.store, r), EditChunkOf(s'.store, r).dirty);
    EditedIsValid(s'.store.live[c].chunk, IndexOf(b), r.edit);
    s' := StepBeside(env, from, s', t, DoEdit);
  }

  lemma EditedIsValid(chunk: LiveChunk, i: BlockIndex, e: Edit)
    requires chunk.contents.Valid()
    ensures EditChunk(chunk, i, e).contents.Valid()
  {
  }

  /** It places blocks until the queue is full, and one more. */
  lemma {:induction false} PlaceUntilJammed(env: Env, from: Server, s: Server, t: Tid, b: BlockCoordinate, id: BlockId)
    returns (s': Server)
    requires SavableSet(env) && Reachable(env, from, s) && Beside(s, t) && t != WRITEBACK
    requires PhaseOf(s, t).Idle? && AboutToWrite(s, b)
    requires |s.store.queue| <= WRITEBACK_QUEUE_SIZE
    ensures Reachable(env, from, s') && Jammed(s', t)
    decreases WRITEBACK_QUEUE_SIZE - |s.store.queue|
  {
    hide Reachable, ChunkOf, IndexOf, SavableSet;
    s' := PlaceUpToQueue(env, from, s, t, b, id);
    if |s'.store.queue| < WRITEBACK_QUEUE_SIZE {
      s' := StepBeside(env, from, s', t, Enqueue);
      s' := StepBeside(env, from, s', t, Release);
      s' := PlaceUntilJammed(env, from, s', t, b, id);
    }
  }

  /** The writeback thread takes one entry and begins to write. */
  lemma WritebackBegins(env: Env, from: Server, s: Server, t: Tid, b: BlockCoordinate) returns (s': Server)
    requires Reachable(env, from, s) && Quiet(s) && Open(s) && t != WRITEBACK
    requires ChunkOf(b) in s.store.live && s.store.live[ChunkOf(b)].IsValid()
    requires s.store.batch == [] && s.store.queue != [] && s.store.queue[0] == ChunkOf(b)
    requires |s.store.queue| <= WRITEBACK_QUEUE_SIZE
    ensures Reachable(env, from, s') && Beside(s', t) && PhaseOf(s', t).Idle? && AboutToWrite(s', b)
    ensures |s'.store.queue| <= WRITEBACK_QUEUE_SIZE
  {
    hide Reachable, ChunkOf, Alone;
    QuietIsIdle(s, WRITEBACK);
    QuietIsAlone(s, WRITEBACK);
    s' := Solo(env, from, s, WRITEBACK, Receive);
    s' := Solo(env, from, s', WRITEBACK, StartWriteback);
    AloneIsBeside(s', t);
  }

  /** The jam is reachable from a server that has just started, with any generator and one thread placing blocks. */
  lemma JamIsReachable(env: Env, t: Tid, b: BlockCoordinate, id: BlockId) returns (s: Server)
    requires GoodEnv(env) && t != WRITEBACK
    ensures Reachable(env, Start(map[]), s) && Jammed(s, t)
  {
    hide Reachable, ChunkOf, IndexOf, KeepsRules, EditChunk, MarksDirty, GoodContents,
      LocksFor, Beside, Alone, SavableSet;
    var start, e := Start(map[]), Set(Cell(id, None));
    GoodAreValid(env);
    var c := ChunkOf(b);
    var found := Found(WithChunk(env, start.store, c, true), Request(b, e));
    PlainBlockKeepsRules(env, c, IndexOf(b), id, found, true);
    EditedIsValid(WithChunk(env, start.store, c, true).live[c].chunk, IndexOf(b), e);
    s := EditIsRun(env, start, t, b, e);
    s := WritebackBegins(env, start, s, t, b);
    s := PlaceUntilJammed(env, start, s, t, b, id);
  }

  lemma AloneIsBeside(s: Server, t: Tid)
    requires Alone(s, WRITEBACK) && PhaseOf(s, WRITEBACK).WritingBack? && t != WRITEBACK
    ensures Beside(s, t) && PhaseOf(s, t).Idle?
  {
    assert {WRITEBACK} + {} == {WRITEBACK};
    assert IsOut(s, t);
  }
}
