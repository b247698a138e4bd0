/** The chunk cache of the server under any interleaving of its threads: the two-phase load, edits, writeback, eviction
    and flush, down to the locks they take (`ServerGameMap`, cuberef_server/src/game_state/game_map.rs). */
module MapProtocol {
  import opened Wrappers
  import opened Coordinates
  import opened MapChunks
  import opened ChunkStorage

  type Tid = nat

  /** The writeback thread; all other threads serve requests, run timers, clean up or flush. */
  const WRITEBACK: Tid := 0

  const WRITEBACK_QUEUE_SIZE: nat := 256

  /** What does not change: the map generator, the block types, the cells that are taken for savable, and the blocks
      whose extended data is observed. Of the other blocks only the id is. */
  datatype Env = Env(
    mapgen: ChunkCoordinate -> Contents,
    defs: DataDefs,
    savable: (BlockIndex, Cell) -> bool,
    exact: (ChunkCoordinate, BlockIndex) -> bool)

  datatype Request = Request(block: BlockCoordinate, edit: Edit)
  {
    function Chunk(): ChunkCoordinate { ChunkOf(block) }
  }

  datatype Holder = Empty | Failed | Filled(chunk: LiveChunk)
  {
    predicate IsValid() { Filled? && chunk.contents.Valid() }
  }

  /** Where a thread is. The names say what it does next. */
  datatype Phase =
    | Idle
    | Starting(r: Request)                    // wants the read lock
    | Looking(r: Request)                     // read lock; looks the chunk up
    | Upgrading(r: Request)                   // no lock; wants the write lock
    | Deciding(r: Request)                    // write lock; looks the chunk up again
    | Loading(r: Request)                     // read lock; inserted an empty holder, loads the chunk
    | Loaded(r: Request, chunk: LiveChunk)    // read lock; fills the holder
    | Waiting(r: Request)                     // read lock; waits for the chunk and its mutex, or gives up
    | Holding(r: Request, pending: bool)      // read lock and mutex; edits
    | Edited(r: Request, pending: bool)       // read lock and mutex; asks for a writeback, or lets go
    | WritingBack                             // read lock; writes chunks back
    | Stopped                                 // the writeback thread after an error, or at shutdown
    | Sweeping                                // write lock; evicts chunks

  /** An edit that took place, and the cell it found. */
  datatype Event = Event(block: BlockCoordinate, edit: Edit, before: Cell)
  {
    function Result(): Cell { After(edit, before) }
  }

  /** The lock of the chunk map, held by many readers or one writer, and the mutexes of the holders. */
  datatype Locks = Locks(readers: set<Tid>, writer: Option<Tid>, mutexes: map<ChunkCoordinate, Tid>)

  datatype Store = Store(
    live: map<ChunkCoordinate, Holder>,
    db: map<ChunkCoordinate, ChunkV1>,
    queue: seq<ChunkCoordinate>,
    batch: seq<ChunkCoordinate>,
    history: seq<Event>,                      // the edits and reads so far, in the order of the mutex
    unsaved: set<ChunkCoordinate>)            // chunks changed since they were last written

  datatype Server = Server(locks: Locks, store: Store, phases: map<Tid, Phase>)

  function PhaseOf(s: Server, t: Tid): Phase { if t in s.phases then s.phases[t] else Idle }

  /** The chunk a thread is working on. */
  function ChunkOfPhase(p: Phase): ChunkCoordinate
    requires HasRequest(p)
  {
    p.r.Chunk()
  }

  predicate HasRequest(p: Phase) { !p.Idle? && !p.WritingBack? && !p.Stopped? && !p.Sweeping? }

  datatype Action =
    | Begin(r: Request)
    | AcquireRead
    | LookHit
    | LookMiss
    | Upgrade
    | LostRace
    | InsertEmpty
    | LoadStored
    | Generate
    | Fill
    | LoadFails
    | Lock
    | GiveUp
    | DoEdit
    | EditAgain(r: Request)
    | Enqueue
    | Refused
    | Release
    | Receive
    | Deduplicate
    | StartWriteback
    | WriteNext
    | WriteFails
    | Shutdown
    | EndWriteback
    | StartSweep
    | Evict(c: ChunkCoordinate)
    | EndSweep

  /** One thread's next action. */
  datatype Step = Step(t: Tid, a: Action)

  // ----- steps -----------------------------------------------------------------------------------------------------

  /** The first of each group of equal entries is dropped as long as another follows: what is left is in the order of
      last occurrence. */
  function KeepLast(batch: seq<ChunkCoordinate>): (r: seq<ChunkCoordinate>) {
    if batch == [] then []
    else if batch[0] in batch[1..] then KeepLast(batch[1..])
    else [batch[0]] + KeepLast(batch[1..])
  }

  /** Where a thread must be to take an action. */
  predicate InPhase(t: Tid, p: Phase, a: Action) {
    match a
    case Begin(_) | StartSweep => p.Idle? && t != WRITEBACK
    case AcquireRead => p.Starting?
    case LookHit | LookMiss => p.Looking?
    case Upgrade => p.Upgrading?
    case LostRace | InsertEmpty => p.Deciding?
    case LoadStored | Generate | LoadFails => p.Loading?
    case Fill => p.Loaded?
    case Lock | GiveUp => p.Waiting?
    case DoEdit => p.Holding?
    case EditAgain(r) => p.Edited? && r.Chunk() == p.r.Chunk()
    case Enqueue | Refused => p.Edited? && p.pending
    case Release => p.Edited? && !p.pending
    case Receive | Deduplicate | StartWriteback | Shutdown => p.Idle? && t == WRITEBACK
    case WriteNext | WriteFails | EndWriteback => p.WritingBack?
    case Evict(_) | EndSweep => p.Sweeping?
  }

  /** The locks that must be free. */
  predicate LocksAllow(l: Locks, s: Store, p: Phase, a: Action) {
    match a
    case AcquireRead | StartWriteback => l.writer.None?
    case Upgrade | StartSweep => l.writer.None? && l.readers == {}
    case Fill | LoadFails | Lock | GiveUp => HasGuard(p) ==> p.r.Chunk() !in l.mutexes
    case WriteNext | WriteFails => s.batch != [] ==> s.batch[0] !in l.mutexes
    case _ => true
  }

  /** Whether the chunk in a holder can be serialized. */
  predicate Writable(env: Env, h: Holder) { h.IsValid() && Serialized(env.defs, h.chunk.contents).Ok? }

  /** The branches that depend on the chunks. The conditions on an edited or written chunk always hold: see
      `LoadersAndEditorsProceed`. */
  predicate StoreAllows(env: Env, s: Store, p: Phase, a: Action) {
    match a
    case LookHit | LostRace => HasRequest(p) && p.r.Chunk() in s.live
    case LookMiss | InsertEmpty => HasRequest(p) && p.r.Chunk() !in s.live
    case LoadStored => HasRequest(p) && p.r.Chunk() in s.db && Parsed(env.defs, s.db[p.r.Chunk()]).Ok?
    case Generate => HasRequest(p) && p.r.Chunk() !in s.db && |s.queue| < WRITEBACK_QUEUE_SIZE
    case Lock => HasRequest(p) && p.r.Chunk() in s.live && s.live[p.r.Chunk()].Filled?
    case GiveUp => HasRequest(p) && p.r.Chunk() in s.live && !s.live[p.r.Chunk()].Filled?
    case DoEdit => HasRequest(p) && p.r.Chunk() in s.live && s.live[p.r.Chunk()].IsValid()
    case Enqueue => |s.queue| < WRITEBACK_QUEUE_SIZE
    case Receive => s.queue != []
    case WriteNext =>
      s.batch != [] && (s.batch[0] in s.live ==> s.live[s.batch[0]].Empty? || Writable(env, s.live[s.batch[0]]))
    case WriteFails =>
      s.batch != [] && s.batch[0] in s.live && !s.live[s.batch[0]].Empty? && !Writable(env, s.live[s.batch[0]])
    case EndWriteback => s.batch == []
    case Evict(c) => c in s.live && (s.live[c].Filled? ==> s.live[c].IsValid())
    case _ => true
  }

  /** Requests for a writeback are refused once the writeback thread has stopped; a chunk that has to be generated then
      fails to load. `writeback` is where that thread is. */
  predicate WritebackAllows(writeback: Phase, a: Action) {
    match a
    case Generate | Enqueue => !writeback.Stopped?
    case Refused => writeback.Stopped?
    case _ => true
  }

  predicate Enabled(env: Env, s: Server, step: Step) {
    var p := PhaseOf(s, step.t);
    && InPhase(step.t, p, step.a)
    && LocksAllow(s.locks, s.store, p, step.a)
    && StoreAllows(env, s.store, p, step.a)
    && WritebackAllows(PhaseOf(s, WRITEBACK), step.a)
  }

  function NextPhase(env: Env, s: Store, t: Tid, p: Phase, a: Action): Phase
    requires InPhase(t, p, a) && StoreAllows(env, s, p, a)
  {
    match a
    case Begin(r) => Starting(r)
    case AcquireRead => Looking(p.r)
    case LookHit => Waiting(p.r)
    case LookMiss => Upgrading(p.r)
    case Upgrade => Deciding(p.r)
    case LostRace => Starting(p.r)
    case InsertEmpty => Loading(p.r)
    case LoadStored => Loaded(p.r, LiveChunk(Parsed(env.defs, s.db[p.r.Chunk()]).value, false))
    case Generate => Loaded(p.r, LiveChunk(env.mapgen(p.r.Chunk()), true))
    case Fill => Waiting(p.r)
    case Lock => Holding(p.r, false)
    case DoEdit =>
      Edited(p.r, p.pending || Enqueues(p.r.edit, Found(s, p.r), EditChunkOf(s, p.r).dirty))
    case EditAgain(r) => Holding(r, p.pending)
    case Enqueue | Refused => Edited(p.r, false)
    case StartWriteback => WritingBack
    case StartSweep => Sweeping
    case WriteFails | Shutdown => Stopped
    case LoadFails | GiveUp | Release | EndWriteback | EndSweep => Idle
    case Receive | Deduplicate | WriteNext | Evict(_) => p
  }

  function NextLocks(l: Locks, t: Tid, p: Phase, a: Action): Locks
    requires InPhase(t, p, a)
  {
    match a
    case AcquireRead | StartWriteback => l.(readers := l.readers + {t})
    case LookMiss | LoadFails | GiveUp | EndWriteback | WriteFails => l.(readers := l.readers - {t})
    case Upgrade | StartSweep => l.(writer := Some(t))
    case LostRace | EndSweep => l.(writer := None)
    case InsertEmpty => l.(writer := None, readers := l.readers + {t})
    case Lock => l.(mutexes := l.mutexes[p.r.Chunk() := t])
    case Release => l.(readers := l.readers - {t}, mutexes := l.mutexes - {p.r.Chunk()})
    case _ => l
  }

  /** The cell that an edit finds. */
  function Found(s: Store, r: Request): Cell
    requires r.Chunk() in s.live && s.live[r.Chunk()].IsValid()
  {
    s.live[r.Chunk()].chunk.contents.Get(IndexOf(r.block))
  }

  function EditChunkOf(s: Store, r: Request): LiveChunk
    requires r.Chunk() in s.live && s.live[r.Chunk()].IsValid()
  {
    EditChunk(s.live[r.Chunk()].chunk, IndexOf(r.block), r.edit)
  }

  function NextStore(env: Env, s: Store, t: Tid, p: Phase, a: Action): Store
    requires InPhase(t, p, a) && StoreAllows(env, s, p, a)
  {
    match a
    case InsertEmpty => s.(live := s.live[p.r.Chunk() := Empty])
    case Fill => s.(live := s.live[p.r.Chunk() := Filled(p.chunk)])
    case LoadFails => s.(live := s.live[p.r.Chunk() := Failed])
    case Generate | Enqueue => s.(queue := s.queue + [p.r.Chunk()])
    case DoEdit =>
      s.(live := s.live[p.r.Chunk() := Filled(EditChunkOf(s, p.r))],
         history := s.history + [Event(p.r.block, p.r.edit, Found(s, p.r))],
         unsaved := if MarksDirty(p.r.edit, Found(s, p.r)) then s.unsaved + {p.r.Chunk()} else s.unsaved)
    case Receive => s.(queue := s.queue[1..], batch := s.batch + [s.queue[0]])
    case Deduplicate => s.(batch := KeepLast(s.batch))
    case WriteNext =>
      var c := s.batch[0];
      var rest := s.(batch := s.batch[1..]);
      if c in s.live && s.live[c].Filled? then
        rest.(db := s.db[c := Serialized(env.defs, s.live[c].chunk.contents).value],
              live := s.live[c := Filled(s.live[c].chunk.(dirty := false))],
              unsaved := s.unsaved - {c})
      else rest
    case Evict(c) =>
      if s.live[c].Filled? && s.live[c].chunk.dirty then
        if Writable(env, s.live[c])
        then s.(live := s.live - {c}, db := s.db[c := Serialized(env.defs, s.live[c].chunk.contents).value],
                unsaved := s.unsaved - {c})
        else s.(live := s.live - {c})
      else s.(live := s.live - {c}, unsaved := s.unsaved - {c})
    case _ => s
  }

  function Do(env: Env, s: Server, step: Step): Server
    requires Enabled(env, s, step)
  {
    var t, p := step.t, PhaseOf(s, step.t);
    Server(NextLocks(s.locks, t, p, step.a), NextStore(env, s.store, t, p, step.a),
           s.phases[t := NextPhase(env, s.store, t, p, step.a)])
  }

  /** A server that has just started on a database. */
  function Start(db: map<ChunkCoordinate, ChunkV1>): Server {
    Server(Locks({}, None, map[]), Store(map[], db, [], [], [], {}), map[])
  }

  // ----- the two-phase load ----------------------------------------------------------------------------------------

  predicate HoldsRead(p: Phase) {
    p.Looking? || p.Loading? || p.Loaded? || p.Waiting? || p.Holding? || p.Edited? || p.WritingBack?
  }

  predicate HoldsWrite(p: Phase) { p.Deciding? || p.Sweeping? }

  predicate HoldsMutex(p: Phase) { p.Holding? || p.Edited? }

  predicate IsLoading(p: Phase) { p.Loading? || p.Loaded? }

  predicate HasGuard(p: Phase) { IsLoading(p) || p.Waiting? || HoldsMutex(p) }

  /** A thread holds exactly the locks that its phase says. */
  predicate ThreadLocks(s: Server, t: Tid) {
    var p := PhaseOf(s, t);
    && (t in s.locks.readers <==> HoldsRead(p))
    && (s.locks.writer == Some(t) <==> HoldsWrite(p))
    && (HoldsMutex(p) ==> p.r.Chunk() in s.locks.mutexes && s.locks.mutexes[p.r.Chunk()] == t)
    && (t == WRITEBACK ==> p.Idle? || p.WritingBack? || p.Stopped?)
    && (t != WRITEBACK ==> !p.WritingBack? && !p.Stopped?)
  }

  predicate MutexOwned(s: Server, c: ChunkCoordinate) {
    c in s.locks.mutexes ==>
      var p := PhaseOf(s, s.locks.mutexes[c]);
      HoldsMutex(p) && p.r.Chunk() == c
  }

  /** The locks are held by exactly the threads whose phase says so, and the write lock excludes all others. */
  ghost predicate LocksHeld(s: Server) {
    && (s.locks.writer.Some? ==> s.locks.readers == {})
    && (forall t: Tid :: ThreadLocks(s, t))
    && (forall c: ChunkCoordinate :: MutexOwned(s, c))
  }

  lemma ThreadLocksKept(env: Env, s: Server, step: Step, u: Tid)
    requires Enabled(env, s, step) && (s.locks.writer.Some? ==> s.locks.readers == {})
    requires ThreadLocks(s, u) && ThreadLocks(s, step.t)
    ensures ThreadLocks(Do(env, s, step), u)
    ensures Do(env, s, step).locks.writer.Some? ==> Do(env, s, step).locks.readers == {}
  {
    hide ChunkOf, IndexOf, EditChunk, SavedForm, KeepLast, Enqueues, MarksDirty;
  }

  lemma MutexOwnedKept(env: Env, s: Server, step: Step, c: ChunkCoordinate)
    requires Enabled(env, s, step) && ThreadLocks(s, step.t) && MutexOwned(s, c)
    ensures MutexOwned(Do(env, s, step), c)
  {
    hide ChunkOf, IndexOf, EditChunk, SavedForm, KeepLast, Enqueues, MarksDirty;
  }

  lemma LocksKept(env: Env, s: Server, step: Step)
    requires LocksHeld(s) && Enabled(env, s, step)
    ensures LocksHeld(Do(env, s, step))
  {
    hide Enabled, Do, ThreadLocks, MutexOwned;
    ThreadLocksKept(env, s, step, WRITEBACK);
    forall t: Tid ensures ThreadLocks(Do(env, s, step), t) { ThreadLocksKept(env, s, step, t); }
    forall c: ChunkCoordinate ensures MutexOwned(Do(env, s, step), c) { MutexOwnedKept(env, s, step, c); }
  }

  /** A guard's chunk is resident; the holder is empty while its chunk is loaded, and filled while its mutex is held. */
  predicate ThreadResident(s: Server, t: Tid) {
    var p := PhaseOf(s, t);
    && (HasGuard(p) ==> p.r.Chunk() in s.store.live)
    && (IsLoading(p) ==> s.store.live[p.r.Chunk()].Empty?)
    && (HoldsMutex(p) ==> s.store.live[p.r.Chunk()].Filled?)
  }

  /** Two threads do not load the same chunk. */
  predicate SingleLoader(s: Server, t: Tid, u: Tid) {
    var p, q := PhaseOf(s, t), PhaseOf(s, u);
    IsLoading(p) && IsLoading(q) && p.r.Chunk() == q.r.Chunk() ==> t == u
  }

  /** Some thread is loading the chunk. */
  ghost predicate HasLoader(s: Server, c: ChunkCoordinate) {
    exists t: Tid :: Loads(s, t, c)
  }

  predicate Loads(s: Server, t: Tid, c: ChunkCoordinate) {
    IsLoading(PhaseOf(s, t)) && PhaseOf(s, t).r.Chunk() == c
  }

  ghost predicate ChunkResident(s: Server, c: ChunkCoordinate) {
    c in s.store.live && s.store.live[c].Empty? ==> HasLoader(s, c)
  }

  /** The two-phase load: every guard's lookup succeeds, and a holder is empty exactly while one thread loads it. */
  ghost predicate Resident(s: Server) {
    && (forall t: Tid :: ThreadResident(s, t))
    && (forall t: Tid, u: Tid :: SingleLoader(s, t, u))
    && (forall c: ChunkCoordinate :: ChunkResident(s, c))
  }

  lemma ThreadResidentKept(env: Env, s: Server, step: Step, u: Tid)
    requires Enabled(env, s, step) && (s.locks.writer.Some? ==> s.locks.readers == {})
    requires ThreadLocks(s, u) && ThreadLocks(s, step.t)
    requires ThreadResident(s, u) && ThreadResident(s, step.t) && SingleLoader(s, u, step.t)
    ensures ThreadResident(Do(env, s, step), u)
  {
    hide ChunkOf, IndexOf, EditChunk, SavedForm, KeepLast, Enqueues, MarksDirty;
  }

  lemma SingleLoaderKept(env: Env, s: Server, step: Step, t: Tid, u: Tid)
    requires Enabled(env, s, step) && SingleLoader(s, t, u)
    requires ThreadResident(s, t) && ThreadResident(s, u)
    ensures SingleLoader(Do(env, s, step), t, u)
  {
    hide ChunkOf, IndexOf, EditChunk, SavedForm, KeepLast, Enqueues, MarksDirty;
  }

  lemma ChunkResidentKept(env: Env, s: Server, step: Step, c: ChunkCoordinate)
    requires Enabled(env, s, step) && ChunkResident(s, c)
    ensures ChunkResident(Do(env, s, step), c)
  {
    hide ChunkOf, IndexOf, EditChunk, SavedForm, KeepLast, Enqueues, MarksDirty;
    var s' := Do(env, s, step);
    if c in s'.store.live && s'.store.live[c].Empty? {
      if step.a.InsertEmpty? && ChunkOfPhase(PhaseOf(s, step.t)) == c {
        assert Loads(s', step.t, c);
      } else {
        var t: Tid :| Loads(s, t, c);
        assert Loads(s', t, c);
      }
    }
  }

  lemma ResidentKept(env: Env, s: Server, step: Step)
    requires LocksHeld(s) && Resident(s) && Enabled(env, s, step)
    ensures Resident(Do(env, s, step))
  {
    hide Enabled, Do, ThreadLocks, MutexOwned, ThreadResident, SingleLoader, ChunkResident;
    var s' := Do(env, s, step);
    forall t: Tid ensures ThreadResident(s', t) { ThreadResidentKept(env, s, step, t); }
    forall t: Tid, u: Tid ensures SingleLoader(s', t, u) { SingleLoaderKept(env, s, step, t, u); }
    forall c: ChunkCoordinate ensures ChunkResident(s', c) { ChunkResidentKept(env, s, step, c); }
  }

  lemma LoadersAndEditorsRead(s: Server, c: ChunkCoordinate)
    requires LocksHeld(s) && Resident(s)
    ensures (c in s.store.live && s.store.live[c].Empty?) || c in s.locks.mutexes ==> s.locks.readers != {}
  {
    if c in s.store.live && s.store.live[c].Empty? {
      assert ChunkResident(s, c);
      var t: Tid :| Loads(s, t, c);
      assert ThreadLocks(s, t);
    } else if c in s.locks.mutexes {
      assert MutexOwned(s, c) && ThreadLocks(s, s.locks.mutexes[c]);
    }
  }

  /** A thread with the write lock sees no empty holder: unloading never drops a chunk that is being loaded, nor one
      that another thread is editing. */
  lemma WriterSeesNoLoad(s: Server, c: ChunkCoordinate)
    requires LocksHeld(s) && Resident(s) && s.locks.writer.Some?
    ensures c in s.store.live ==> !s.store.live[c].Empty?
    ensures c !in s.locks.mutexes
  {
    LoadersAndEditorsRead(s, c);
  }

  // ----- contents --------------------------------------------------------------------------------------------------

  /** What is observed of a cell: the id, and the extended data where it is asked for. */
  function Observed(env: Env, b: BlockCoordinate, cell: Cell): Cell {
    if env.exact(ChunkOf(b), IndexOf(b)) then cell else Cell(cell.id, None)
  }

  /** Two contents of one chunk look the same. */
  predicate Same(env: Env, c: ChunkCoordinate, a: Contents, b: Contents) {
    && a.Valid() && b.Valid() && a.ids == b.ids
    && forall i: BlockIndex :: env.exact(c, i) ==> a.Get(i) == b.Get(i)
  }

  predicate CellStorable(defs: DataDefs, cell: Cell) {
    cell.ext.Some? ==> Storable(defs, cell.id, cell.ext.value)
  }

  /** A set of savable cells: with all plain blocks, and only cells that can be written and read back, maybe changed to
      another of the set. */
  ghost predicate SavableSet(env: Env) {
    && (forall i: BlockIndex, id: BlockId :: env.savable(i, Cell(id, None)))
    && (forall i: BlockIndex, cell: Cell :: env.savable(i, cell) && cell.ext.Some? ==>
          var r := AfterStorage(env.defs, cell.id, i, cell.ext.value);
          r.Ok? && (r.value.Some? ==> env.savable(i, Cell(cell.id, r.value))))
  }

  /** A cell for the map: one that can be saved, and one that is saved unchanged where extended data is observed. */
  predicate CellGood(env: Env, c: ChunkCoordinate, i: BlockIndex, cell: Cell) {
    env.savable(i, cell) && (env.exact(c, i) ==> CellStorable(env.defs, cell))
  }

  /** A whole chunk of the map. */
  predicate GoodContents(env: Env, c: ChunkCoordinate, k: Contents) {
    k.Valid() && forall i: BlockIndex :: CellGood(env, c, i, k.Get(i))
  }

  ghost predicate GoodEnv(env: Env) { SavableSet(env) && forall c :: GoodContents(env, c, env.mapgen(c)) }

  /** What is read from the database; an unreadable chunk has no blocks. */
  function Decoded(env: Env, v: ChunkV1): Contents {
    var r := Parsed(env.defs, v);
    if r.Ok? then r.value else Contents([], map[])
  }

  predicate GoodDb(env: Env, db: map<ChunkCoordinate, ChunkV1>) {
    forall c :: c in db ==> Parsed(env.defs, db[c]).Ok? && GoodContents(env, c, Decoded(env, db[c]))
  }

  /** The rules asked of an edit on the cell that it finds: what it leaves can be saved, for otherwise its failure to
      serialize would lose the chunk; and where extended data is observed it is saved unchanged, and a mutator that
      changes it says so. */
  predicate KeepsRules(env: Env, c: ChunkCoordinate, i: BlockIndex, edit: Edit, before: Cell) {
    && CellGood(env, c, i, After(edit, before))
    && (env.exact(c, i) && After(edit, before) != before ==> MarksDirty(edit, before))
  }

  predicate Allowed(env: Env, s: Server, step: Step)
    requires Enabled(env, s, step)
  {
    step.a.DoEdit? ==>
      var p := PhaseOf(s, step.t);
      KeepsRules(env, p.r.Chunk(), IndexOf(p.r.block), p.r.edit, Found(s.store, p.r))
  }

  /** One cell of what is read back. */
  lemma SavedCell(env: Env, c: ChunkCoordinate, k: Contents, i: BlockIndex)
    requires SavableSet(env) && k.Valid() && CellGood(env, c, i, k.Get(i))
    ensures var saved := SavedForm(env.defs, k);
      && saved.Valid() && CellGood(env, c, i, saved.Get(i))
      && (env.exact(c, i) ==> saved.Get(i) == k.Get(i))
    ensures i in k.ext ==> AfterStorage(env.defs, k.ids[i], i, k.ext[i]).Ok?
  {
    hide Storable, AfterStorage;
    if env.exact(c, i) && i in k.ext {
      KeptExactly(env.defs, k.ids[i], i, k.ext[i]);
    }
  }

  /** A chunk of the map is always written, and what is read back looks the same. */
  lemma SavedLooksSame(env: Env, c: ChunkCoordinate, k: Contents)
    requires GoodEnv(env) && GoodContents(env, c, k)
    ensures Serialized(env.defs, k).Ok?
    ensures Parsed(env.defs, Serialized(env.defs, k).value) == Ok(SavedForm(env.defs, k))
    ensures Same(env, c, SavedForm(env.defs, k), k) && GoodContents(env, c, SavedForm(env.defs, k))
  {
    hide Serialized, Parsed, SavedForm, AfterStorage, CellGood;
    forall i: BlockIndex
      ensures CellGood(env, c, i, k.Get(i)) && SavedForm(env.defs, k).Valid()
      ensures CellGood(env, c, i, SavedForm(env.defs, k).Get(i))
      ensures env.exact(c, i) ==> SavedForm(env.defs, k).Get(i) == k.Get(i)
      ensures i in k.ext ==> AfterStorage(env.defs, k.ids[i], i, k.ext[i]).Ok?
    {
      SavedCell(env, c, k, i);
    }
    Stores(env.defs, k);
    SavedIds(env.defs, k);
  }

  lemma SavedIds(defs: DataDefs, k: Contents)
    requires k.Valid()
    ensures SavedForm(defs, k).ids == k.ids
  {
  }

  /** An edit that keeps the rules leaves good contents, changes one cell, and leaves no other trace in a clean chunk
      than what is not observed. */
  lemma EditedContents(env: Env, c: ChunkCoordinate, chunk: LiveChunk, i: BlockIndex, edit: Edit)
    requires GoodContents(env, c, chunk.contents) && KeepsRules(env, c, i, edit, chunk.contents.Get(i))
    ensures var after := EditChunk(chunk, i, edit);
      && GoodContents(env, c, after.contents)
      && (!MarksDirty(edit, chunk.contents.Get(i)) ==> Same(env, c, chunk.contents, after.contents))
      && (!after.dirty ==> !chunk.dirty && Same(env, c, chunk.contents, after.contents))
  {
    hide CellGood;
    var before, k := chunk.contents.Get(i), chunk.contents;
    var k' := EditChunk(chunk, i, edit).contents;
    forall j: BlockIndex
      ensures CellGood(env, c, j, k'.Get(j)) && k'.Get(j) == if i == j then After(edit, before) else k.Get(j)
    {
      GetAfterSet(k, i, After(edit, before), j);
      assert CellGood(env, c, j, k.Get(j));
    }
    if !MarksDirty(edit, before) {
      assert After(edit, before).id == before.id;
      assert k'.ids == k.ids;
    }
  }

  /** A resident chunk is good, and agrees with the database if it is clean. */
  predicate ChunkData(env: Env, s: Store, c: ChunkCoordinate) {
    c in s.live && s.live[c].Filled? ==>
      var chunk := s.live[c].chunk;
      && GoodContents(env, c, chunk.contents)
      && (!chunk.dirty ==> c in s.db && Same(env, c, Decoded(env, s.db[c]), chunk.contents))
  }

  /** A loaded chunk that is not yet in its holder is the stored one, clean, or a generated one, dirty. */
  predicate LoadedData(env: Env, s: Server, t: Tid) {
    var p := PhaseOf(s, t);
    p.Loaded? ==>
      var c := p.r.Chunk();
      p.chunk ==
        if c in s.store.db then LiveChunk(Decoded(env, s.store.db[c]), false) else LiveChunk(env.mapgen(c), true)
  }

  ghost predicate DataGood(env: Env, s: Server) {
    && GoodDb(env, s.store.db)
    && (forall c: ChunkCoordinate :: ChunkData(env, s.store, c))
    && (forall t: Tid :: LoadedData(env, s, t))
  }

  lemma GoodDbKept(env: Env, s: Server, step: Step)
    requires GoodEnv(env) && Enabled(env, s, step) && GoodDb(env, s.store.db)
    requires forall c: ChunkCoordinate :: ChunkData(env, s.store, c)
    ensures GoodDb(env, Do(env, s, step).store.db)
  {
    hide ChunkOf, IndexOf, EditChunk, SavedForm, KeepLast, Enqueues, MarksDirty, GoodContents;
    if step.a.WriteNext? || step.a.Evict? {
      var c := if step.a.WriteNext? then s.store.batch[0] else step.a.c;
      assert ChunkData(env, s.store, c);
      if c in s.store.live && s.store.live[c].Filled? {
        SavedLooksSame(env, c, s.store.live[c].chunk.contents);
      }
    }
  }

  lemma ChunkDataKept(env: Env, s: Server, step: Step, c: ChunkCoordinate)
    requires Enabled(env, s, step) && Allowed(env, s, step)
    requires GoodEnv(env) && GoodDb(env, s.store.db) && ChunkData(env, s.store, c) && LoadedData(env, s, step.t)
    ensures ChunkData(env, Do(env, s, step).store, c)
  {
    hide ChunkOf, IndexOf, EditChunk, SavedForm, KeepLast, Enqueues, MarksDirty, GoodContents, KeepsRules;
    if step.a.DoEdit? {
      var r := PhaseOf(s, step.t).r;
      if r.Chunk() == c {
        EditedContents(env, c, s.store.live[c].chunk, IndexOf(r.block), r.edit);
      }
    } else if step.a.WriteNext? && s.store.batch[0] == c && c in s.store.live && s.store.live[c].Filled? {
      SavedLooksSame(env, c, s.store.live[c].chunk.contents);
    }
  }

  lemma LoadedDataKept(env: Env, s: Server, step: Step, t: Tid)
    requires Enabled(env, s, step) && (s.locks.writer.Some? ==> s.locks.readers == {})
    requires ThreadLocks(s, t) && ThreadLocks(s, step.t)
    requires ThreadResident(s, t) && LoadedData(env, s, t)
    ensures LoadedData(env, Do(env, s, step), t)
  {
    hide ChunkOf, IndexOf, EditChunk, SavedForm, KeepLast, Enqueues, MarksDirty;
  }

  lemma DataKept(env: Env, s: Server, step: Step)
    requires LocksHeld(s) && Resident(s) && Enabled(env, s, step) && Allowed(env, s, step)
    requires GoodEnv(env) && DataGood(env, s)
    ensures DataGood(env, Do(env, s, step))
  {
    hide Enabled, Do, Allowed, ThreadLocks, ThreadResident, ChunkData, LoadedData, GoodDb;
    var s' := Do(env, s, step);
    GoodDbKept(env, s, step);
    forall c: ChunkCoordinate ensures ChunkData(env, s'.store, c) { ChunkDataKept(env, s, step, c); }
    forall t: Tid ensures LoadedData(env, s', t) { LoadedDataKept(env, s, step, t); }
  }

  // ----- the cache refines a plain map -----------------------------------------------------------------------------

  /** The contents of a chunk, wherever they are. */
  function Current(env: Env, s: Store, c: ChunkCoordinate): Contents {
    if c in s.live && s.live[c].Filled? then s.live[c].chunk.contents
    else if c in s.db then Decoded(env, s.db[c])
    else env.mapgen(c)
  }

  lemma CurrentGood(env: Env, s: Server, c: ChunkCoordinate)
    requires GoodEnv(env) && DataGood(env, s)
    ensures GoodContents(env, c, Current(env, s.store, c))
  {
    assert ChunkData(env, s.store, c);
  }

  /** Nothing but an edit changes what a chunk looks like. */
  lemma CurrentKept(env: Env, s: Server, step: Step, c: ChunkCoordinate)
    requires LocksHeld(s) && Resident(s) && Enabled(env, s, step)
    requires GoodEnv(env) && DataGood(env, s)
    requires step.a.DoEdit? ==> PhaseOf(s, step.t).r.Chunk() != c
    ensures Same(env, c, Current(env, Do(env, s, step).store, c), Current(env, s.store, c))
  {
    hide ChunkOf, IndexOf, EditChunk, SavedForm, KeepLast, Enqueues, MarksDirty, GoodContents,
      GoodDb, LocksHeld, GoodEnv,
      Serialized, Parsed;
    CurrentGood(env, s, c);
    GoodIsValid(env, c, Current(env, s.store, c));
    assert ChunkData(env, s.store, c) && LoadedData(env, s, step.t) && ThreadResident(s, step.t);
    if (step.a.WriteNext? || step.a.Evict?) && c in s.store.live && s.store.live[c].Filled? {
      SavedLooksSame(env, c, s.store.live[c].chunk.contents);
    }
  }

  /** What there is at a block of the served map. */
  function CellAt(env: Env, s: Store, b: BlockCoordinate): Cell
    requires Current(env, s, ChunkOf(b)).Valid()
  {
    Observed(env, b, Current(env, s, ChunkOf(b)).Get(IndexOf(b)))
  }

  ghost predicate Viewable(env: Env, s: Store) { forall c: ChunkCoordinate :: Current(env, s, c).Valid() }

  /** The plain map: no chunks, no cache, no database, just the last edit of each block. */
  function Plain(env: Env, start: Server, history: seq<Event>, b: BlockCoordinate): Cell
    requires Current(env, start.store, ChunkOf(b)).Valid()
  {
    if history == [] then CellAt(env, start.store, b)
    else
      var last := history[|history| - 1];
      if last.block == b then last.Result() else Plain(env, start, history[..|history| - 1], b)
  }

  /** The `k`-th edit found what the edits before it left. */
  predicate FoundPlain(env: Env, start: Server, history: seq<Event>, k: nat)
    requires k < |history| && Current(env, start.store, ChunkOf(history[k].block)).Valid()
  {
    Observed(env, history[k].block, history[k].before)
    == Observed(env, history[k].block, Plain(env, start, history[..k], history[k].block))
  }

  /** The served map is the plain map, and every edit so far acted on the plain map of its time. */
  ghost predicate Refines(env: Env, start: Server, s: Server)
    requires Viewable(env, start.store)
  {
    && Viewable(env, s.store)
    && (forall b: BlockCoordinate :: CellAt(env, s.store, b) == Observed(env, b, Plain(env, start, s.store.history, b)))
    && (forall k: nat :: k < |s.store.history| ==> FoundPlain(env, start, s.store.history, k))
  }

  lemma ViewKept(env: Env, s: Server, step: Step, b: BlockCoordinate)
    requires LocksHeld(s) && Resident(s) && Enabled(env, s, step) && Allowed(env, s, step)
    requires GoodEnv(env) && DataGood(env, s)
    requires Viewable(env, s.store) && Viewable(env, Do(env, s, step).store)
    ensures var s' := Do(env, s, step);
      CellAt(env, s'.store, b) ==
        if step.a.DoEdit? && s'.store.history[|s.store.history|].block == b
        then Observed(env, b, s'.store.history[|s.store.history|].Result())
        else CellAt(env, s.store, b)
  {
    hide ChunkOf, IndexOf, EditChunk, SavedForm, KeepLast, Enqueues, MarksDirty, GoodContents,
      GoodDb, LocksHeld, GoodEnv, Resident,
      KeepsRules, ChunkData, LoadedData, DataGood, Viewable;
    var s' := Do(env, s, step);
    var c := ChunkOf(b);
    if step.a.DoEdit? && PhaseOf(s, step.t).r.Chunk() == c {
      var r := PhaseOf(s, step.t).r;
      var was := s.store.live[c].chunk;
      assert r.Chunk() == ChunkOf(r.block);
      assert Current(env, s.store, c) == was.contents;
      assert Current(env, s'.store, c) == EditChunk(was, IndexOf(r.block), r.edit).contents;
      EditedCell(was, r.block, r.edit, b);
    } else {
      CurrentKept(env, s, step, c);
      assert step.a.DoEdit? ==> s'.store.history[|s.store.history|].block == PhaseOf(s, step.t).r.block;
    }
  }

  lemma EditedCell(chunk: LiveChunk, at: BlockCoordinate, edit: Edit, b: BlockCoordinate)
    requires chunk.contents.Valid() && ChunkOf(at) == ChunkOf(b)
    ensures var after := EditChunk(chunk, IndexOf(at), edit).contents;
      && after.Valid()
      && after.Get(IndexOf(b)) ==
           if at == b then After(edit, chunk.contents.Get(IndexOf(at))) else chunk.contents.Get(IndexOf(b))
  {
    GetAfterSet(chunk.contents, IndexOf(at), After(edit, chunk.contents.Get(IndexOf(at))), IndexOf(b));
    if IndexOf(at) == IndexOf(b) { StorageInjective(at, b); }
  }

  /** Only an edit adds to the history, and its event has the cell that was served at that moment. */
  lemma HistoryGrows(env: Env, s: Server, step: Step)
    requires Enabled(env, s, step) && Viewable(env, s.store)
    ensures var h, h' := s.store.history, Do(env, s, step).store.history;
      if step.a.DoEdit? then
        && |h'| == |h| + 1 && h'[..|h|] == h
        && Observed(env, h'[|h|].block, h'[|h|].before) == CellAt(env, s.store, h'[|h|].block)
      else h' == h
  {
    hide ChunkOf, IndexOf, EditChunk, SavedForm, KeepLast, Enqueues, MarksDirty;
  }

  lemma RefinesKept(env: Env, start: Server, s: Server, step: Step)
    requires LocksHeld(s) && Resident(s) && Enabled(env, s, step) && Allowed(env, s, step)
    requires GoodEnv(env) && DataGood(env, s) && Viewable(env, start.store) && Refines(env, start, s)
    ensures Refines(env, start, Do(env, s, step))
  {
    hide Do, Enabled, Allowed, LocksHeld, Resident, DataGood, GoodEnv, CellAt, Current, Observed, GoodContents;
    var s' := Do(env, s, step);
    var h, h' := s.store.history, s'.store.history;
    DataKept(env, s, step);
    forall c: ChunkCoordinate ensures Current(env, s'.store, c).Valid() {
      CurrentGood(env, s', c);
      GoodIsValid(env, c, Current(env, s'.store, c));
    }
    HistoryGrows(env, s, step);
    forall b: BlockCoordinate ensures CellAt(env, s'.store, b) == Observed(env, b, Plain(env, start, h', b)) {
      ViewKept(env, s, step, b);
      assert CellAt(env, s.store, b) == Observed(env, b, Plain(env, start, h, b));
    }
    forall k: nat | k < |h'| ensures FoundPlain(env, start, h', k) {
      if k < |h| {
        assert FoundPlain(env, start, h, k) && h'[..k] == h[..k] && h'[k] == h[k];
      } else {
        assert CellAt(env, s.store, h'[k].block) == Observed(env, h'[k].block, Plain(env, start, h, h'[k].block));
      }
    }
  }

  lemma GoodIsValid(env: Env, c: ChunkCoordinate, k: Contents)
    requires GoodContents(env, c, k)
    ensures k.Valid()
  {
  }

  // ----- no writeback is lost --------------------------------------------------------------------------------------

  /** The writeback thread will hear of the chunk: it is queued, in the batch, or its editor is about to queue it. */
  predicate Requested(s: Server, c: ChunkCoordinate) {
    || c in s.store.queue
    || c in s.store.batch
    || (c in s.locks.mutexes
        && var p := PhaseOf(s, s.locks.mutexes[c]); HoldsMutex(p) && p.pending && p.r.Chunk() == c)
  }

  /** A chunk that was edited since it was last written is resident and dirty; and as long as the writeback thread has
      not stopped, it will hear of it. */
  predicate WillBeSaved(s: Server, c: ChunkCoordinate) {
    c in s.store.unsaved ==>
      && c in s.store.live && s.store.live[c].Filled? && s.store.live[c].chunk.dirty
      && (PhaseOf(s, WRITEBACK).Stopped? || Requested(s, c))
  }

  ghost predicate NoneLost(s: Server) { forall c: ChunkCoordinate :: WillBeSaved(s, c) }

  /** Gathering drops no coordinate, yields each once, and keeps the order of last occurrence. */
  lemma {:induction false} KeepLastKeeps(batch: seq<ChunkCoordinate>)
    ensures forall c :: c in batch <==> c in KeepLast(batch)
    ensures forall i, j :: 0 <= i < j < |KeepLast(batch)| ==> KeepLast(batch)[i] != KeepLast(batch)[j]
  {
    if batch != [] { KeepLastKeeps(batch[1..]); }
  }

  /** The steps of a thread with the mutex of a chunk. */
  predicate IsEditing(a: Action) {
    a.Lock? || a.DoEdit? || a.EditAgain? || a.Enqueue? || a.Refused? || a.Release?
  }

  predicate IsWriting(a: Action) { a.Receive? || a.Deduplicate? || a.WriteNext? || a.WriteFails? }

  lemma WillBeSavedByEditor(env: Env, s: Server, step: Step, c: ChunkCoordinate)
    requires Enabled(env, s, step) && IsEditing(step.a) && WillBeSaved(s, c)
    requires ThreadLocks(s, step.t) && ThreadResident(s, step.t)
    requires c in s.locks.mutexes ==> ThreadLocks(s, s.locks.mutexes[c])
    ensures WillBeSaved(Do(env, s, step), c)
  {
    hide ChunkOf, IndexOf, KeepLast, Serialized, Parsed;
  }

  lemma WillBeSavedByWriter(env: Env, s: Server, step: Step, c: ChunkCoordinate)
    requires Enabled(env, s, step) && IsWriting(step.a) && WillBeSaved(s, c)
    requires ThreadLocks(s, step.t)
    ensures WillBeSaved(Do(env, s, step), c)
  {
    hide ChunkOf, IndexOf, KeepLast, Serialized, Parsed;
    KeepLastKeeps(s.store.batch);
  }

  lemma WillBeSavedByOthers(env: Env, s: Server, step: Step, c: ChunkCoordinate)
    requires Enabled(env, s, step) && !IsEditing(step.a) && !IsWriting(step.a) && WillBeSaved(s, c)
    requires ThreadLocks(s, step.t) && ThreadResident(s, step.t)
    requires c in s.locks.mutexes ==> ThreadLocks(s, s.locks.mutexes[c])
    requires c in s.store.live && s.store.live[c].Filled? ==> Writable(env, s.store.live[c])
    ensures WillBeSaved(Do(env, s, step), c)
  {
    hide ChunkOf, IndexOf, KeepLast, Serialized, Parsed;
  }

  lemma WillBeSavedKept(env: Env, s: Server, step: Step, c: ChunkCoordinate)
    requires Enabled(env, s, step) && WillBeSaved(s, c)
    requires ThreadLocks(s, step.t) && ThreadResident(s, step.t)
    requires c in s.locks.mutexes ==> ThreadLocks(s, s.locks.mutexes[c])
    requires GoodEnv(env) && ChunkData(env, s.store, c)
    ensures WillBeSaved(Do(env, s, step), c)
  {
    hide Enabled, Do, WillBeSaved, ThreadLocks, ThreadResident, Serialized, Parsed, GoodContents;
    if IsEditing(step.a) {
      WillBeSavedByEditor(env, s, step, c);
    } else if IsWriting(step.a) {
      WillBeSavedByWriter(env, s, step, c);
    } else {
      if c in s.store.live && s.store.live[c].Filled? {
        GoodIsValid(env, c, s.store.live[c].chunk.contents);
        SavedLooksSame(env, c, s.store.live[c].chunk.contents);
      }
      WillBeSavedByOthers(env, s, step, c);
    }
  }

  lemma NoneLostKept(env: Env, s: Server, step: Step)
    requires LocksHeld(s) && Resident(s) && Enabled(env, s, step) && NoneLost(s)
    requires GoodEnv(env) && DataGood(env, s)
    ensures NoneLost(Do(env, s, step))
  {
    hide Do, Enabled, WillBeSaved, ThreadLocks, ThreadResident, MutexOwned, SingleLoader, ChunkResident, ChunkData,
      LoadedData, GoodDb;
    forall c: ChunkCoordinate ensures WillBeSaved(Do(env, s, step), c) { WillBeSavedKept(env, s, step, c); }
  }

  function LastIndex(batch: seq<ChunkCoordinate>, c: ChunkCoordinate): nat
    requires c in batch
  {
    if batch[|batch| - 1] == c then |batch| - 1 else LastIndex(batch[..|batch| - 1], c)
  }

  lemma {:induction false} LastIndexInTail(batch: seq<ChunkCoordinate>, c: ChunkCoordinate)
    requires batch != [] && c in batch[1..]
    ensures LastIndex(batch, c) == LastIndex(batch[1..], c) + 1
  {
    if batch[|batch| - 1] != c {
      var front := batch[..|batch| - 1];
      assert front[1..] == batch[1..][..|batch| - 2];
      assert batch == front + [batch[|batch| - 1]];
      LastIndexInTail(front, c);
    }
  }

  lemma {:induction false} KeepLastInOrder(batch: seq<ChunkCoordinate>, i: nat, j: nat)
    requires i < j < |KeepLast(batch)|
    ensures KeepLast(batch)[i] in batch && KeepLast(batch)[j] in batch
    ensures LastIndex(batch, KeepLast(batch)[i]) < LastIndex(batch, KeepLast(batch)[j])
  {
    var kept := KeepLast(batch);
    KeepLastKeeps(batch);
    KeepLastKeeps(batch[1..]);
    var k := if batch[0] in batch[1..] then 0 else 1;
    LastIndexInTail(batch, kept[j]);
    if i >= k {
      KeepLastInOrder(batch[1..], i - k, j - k);
      LastIndexInTail(batch, kept[i]);
    } else {
      HeadOnly(batch);
    }
  }

  lemma {:induction false} HeadOnly(batch: seq<ChunkCoordinate>)
    requires batch != [] && batch[0] !in batch[1..]
    ensures LastIndex(batch, batch[0]) == 0
  {
    if |batch| > 1 {
      var front := batch[..|batch| - 1];
      assert batch[|batch| - 1] == batch[1..][|batch| - 2];
      HeadOnly(front);
    }
  }

  // ----- durability ------------------------------------------------------------------------------------------------

  /** What a new server would find. */
  function Stored(env: Env, s: Store, c: ChunkCoordinate): Contents {
    if c in s.db then Decoded(env, s.db[c]) else env.mapgen(c)
  }

  /** A chunk without unsaved edits could be dropped at any moment. */
  predicate Durable(env: Env, s: Server, c: ChunkCoordinate) {
    c !in s.store.unsaved ==> Same(env, c, Current(env, s.store, c), Stored(env, s.store, c))
  }

  /** The database changes under a chunk only when the chunk is written as it is in memory, and only then does the
      chunk stop having unsaved edits. */
  lemma StoredKept(env: Env, s: Server, step: Step, c: ChunkCoordinate)
    requires GoodEnv(env) && Enabled(env, s, step) && WillBeSaved(s, c) && ChunkData(env, s.store, c)
    ensures var s' := Do(env, s, step);
      || (c in s.store.live && s.store.live[c].Filled? && s.store.live[c].chunk.contents.Valid()
          && Stored(env, s'.store, c) == SavedForm(env.defs, s.store.live[c].chunk.contents))
      || (Stored(env, s'.store, c) == Stored(env, s.store, c) && (c in s.store.unsaved ==> c in s'.store.unsaved))
  {
    hide ChunkOf, IndexOf, EditChunk, SavedForm, KeepLast, Enqueues, MarksDirty, Serialized, Parsed, GoodContents;
    if c in s.store.live && s.store.live[c].Filled? {
      GoodIsValid(env, c, s.store.live[c].chunk.contents);
      SavedLooksSame(env, c, s.store.live[c].chunk.contents);
    }
  }

  lemma EditDurable(env: Env, s: Server, step: Step, c: ChunkCoordinate)
    requires Enabled(env, s, step) && Allowed(env, s, step) && step.a.DoEdit? && PhaseOf(s, step.t).r.Chunk() == c
    requires ChunkData(env, s.store, c) && Durable(env, s, c)
    ensures Durable(env, Do(env, s, step), c)
  {
    hide EditChunk, MarksDirty, GoodContents, KeepsRules, Enqueues;
    var r := PhaseOf(s, step.t).r;
    EditedContents(env, c, s.store.live[c].chunk, IndexOf(r.block), r.edit);
  }

  lemma DurableKept(env: Env, s: Server, step: Step, c: ChunkCoordinate)
    requires LocksHeld(s) && Resident(s) && Enabled(env, s, step) && Allowed(env, s, step)
    requires GoodEnv(env) && DataGood(env, s) && WillBeSaved(s, c) && Durable(env, s, c)
    ensures Durable(env, Do(env, s, step), c)
  {
    hide Do, Allowed, EditChunk, SavedForm, GoodContents, GoodDb, LocksHeld, GoodEnv, Resident, WillBeSaved;
    assert ChunkData(env, s.store, c);
    if step.a.DoEdit? && PhaseOf(s, step.t).r.Chunk() == c {
      EditDurable(env, s, step, c);
    } else {
      CurrentKept(env, s, step, c);
      StoredKept(env, s, step, c);
      if c in s.store.live && s.store.live[c].Filled? {
        SavedLooksSame(env, c, s.store.live[c].chunk.contents);
      }
    }
  }

  // ----- whole runs ------------------------------------------------------------------------------------------------

  /** All steps are enabled, and keep the rules for extended data, when they are taken. */
  predicate Runs(env: Env, s: Server, steps: seq<Step>)
    decreases |steps|
  {
    steps == [] ||
    (Enabled(env, s, steps[0]) && Allowed(env, s, steps[0]) && Runs(env, Do(env, s, steps[0]), steps[1..]))
  }

  function AfterRun(env: Env, s: Server, steps: seq<Step>): Server
    requires Runs(env, s, steps)
    decreases |steps|
  {
    if steps == [] then s else AfterRun(env, Do(env, s, steps[0]), steps[1..])
  }

  ghost predicate AllDurable(env: Env, s: Server) { forall c: ChunkCoordinate :: Durable(env, s, c) }

  /** Everything that every step keeps. */
  ghost predicate Invariant(env: Env, start: Server, s: Server) {
    && LocksHeld(s) && Resident(s) && DataGood(env, s) && NoneLost(s) && AllDurable(env, s)
    && Viewable(env, start.store) && Refines(env, start, s)
  }

  lemma InvariantKept(env: Env, start: Server, s: Server, step: Step)
    requires GoodEnv(env) && Invariant(env, start, s) && Enabled(env, s, step) && Allowed(env, s, step)
    ensures Invariant(env, start, Do(env, s, step))
  {
    hide Enabled, Do, Allowed, GoodEnv, LocksHeld, Resident, DataGood, Refines, WillBeSaved, Durable;
    LocksKept(env, s, step);
    ResidentKept(env, s, step);
    DataKept(env, s, step);
    NoneLostKept(env, s, step);
    RefinesKept(env, start, s, step);
    forall c: ChunkCoordinate ensures Durable(env, Do(env, s, step), c) { DurableKept(env, s, step, c); }
  }

  lemma InvariantAtStart(env: Env, db: map<ChunkCoordinate, ChunkV1>)
    requires GoodEnv(env) && GoodDb(env, db)
    ensures Invariant(env, Start(db), Start(db))
  {
  }

  lemma {:induction false} InvariantOverRun(env: Env, start: Server, s: Server, steps: seq<Step>)
    requires GoodEnv(env) && Invariant(env, start, s) && Runs(env, s, steps)
    ensures Invariant(env, start, AfterRun(env, s, steps))
    decreases |steps|
  {
    hide Enabled, Do, Allowed, GoodEnv, Invariant;
    if steps != [] {
      InvariantKept(env, start, s, steps[0]);
      InvariantOverRun(env, start, Do(env, s, steps[0]), steps[1..]);
    }
  }

  /** Over every interleaving of loads, edits, writebacks, evictions and flushes, the cache is a plain map changed only
      by the edits, and every edit found what the plain map had at that moment. */
  lemma CacheRefinesPlainMap(env: Env, db: map<ChunkCoordinate, ChunkV1>, steps: seq<Step>)
    requires GoodEnv(env) && GoodDb(env, db) && Runs(env, Start(db), steps)
    ensures Viewable(env, Start(db).store) && Refines(env, Start(db), AfterRun(env, Start(db), steps))
  {
    hide Refines, Runs, AfterRun;
    InvariantAtStart(env, db);
    InvariantOverRun(env, Start(db), Start(db), steps);
  }

  /** In every reachable state: a guard's chunk is resident, whoever loads a chunk finds its holder empty and is alone
      in loading it, and a thread with the write lock sees no chunk being loaded or edited. */
  lemma LoadsAreExclusive(
    env: Env, db: map<ChunkCoordinate, ChunkV1>, steps: seq<Step>, t: Tid, u: Tid, c: ChunkCoordinate)
    requires GoodEnv(env) && GoodDb(env, db) && Runs(env, Start(db), steps)
    ensures var s := AfterRun(env, Start(db), steps);
      && (HasGuard(PhaseOf(s, t)) ==> PhaseOf(s, t).r.Chunk() in s.store.live)
      && (IsLoading(PhaseOf(s, t)) ==> s.store.live[PhaseOf(s, t).r.Chunk()].Empty?)
      && (t != u && Loads(s, t, c) ==> !Loads(s, u, c))
      && (s.locks.writer.Some? && c in s.store.live ==> !s.store.live[c].Empty? && c !in s.locks.mutexes)
  {
    hide Runs, AfterRun, Refines, DataGood, MutexOwned, ThreadLocks, ChunkResident;
    InvariantAtStart(env, db);
    InvariantOverRun(env, Start(db), Start(db), steps);
    var s := AfterRun(env, Start(db), steps);
    assert ThreadResident(s, t) && SingleLoader(s, t, u);
    if s.locks.writer.Some? { WriterSeesNoLoad(s, c); }
  }

  lemma LockedIsFilled(s: Server, c: ChunkCoordinate)
    requires LocksHeld(s) && Resident(s) && c in s.locks.mutexes
    ensures c in s.store.live && s.store.live[c].Filled?
  {
    assert MutexOwned(s, c) && ThreadResident(s, s.locks.mutexes[c]);
  }

  /** In every reachable state, a thread with a loaded chunk can fill its holder at once, and a thread with a chunk's
      mutex finds the chunk filled, well-formed, and can edit it. */
  lemma LoadersAndEditorsProceed(env: Env, db: map<ChunkCoordinate, ChunkV1>, steps: seq<Step>, t: Tid)
    requires GoodEnv(env) && GoodDb(env, db) && Runs(env, Start(db), steps)
    ensures var s := AfterRun(env, Start(db), steps);
      && (PhaseOf(s, t).Loaded? ==> Enabled(env, s, Step(t, Fill)))
      && (PhaseOf(s, t).Holding? ==> Enabled(env, s, Step(t, DoEdit)))
  {
    hide Runs, AfterRun, Refines, LoadedData, ChunkResident, SingleLoader;
    InvariantAtStart(env, db);
    InvariantOverRun(env, Start(db), Start(db), steps);
    var s := AfterRun(env, Start(db), steps);
    assert ThreadResident(s, t);
    if PhaseOf(s, t).Loaded? {
      var c := PhaseOf(s, t).r.Chunk();
      if c in s.locks.mutexes { LockedIsFilled(s, c); }
    } else if PhaseOf(s, t).Holding? {
      assert ChunkData(env, s.store, PhaseOf(s, t).r.Chunk());
    }
  }

  /** In every reachable state, a new server on the same database would serve every chunk without unsaved edits as it
      is now, and every chunk with unsaved edits is in memory, dirty, and, as long as the writeback thread has not
      stopped, on its way to it. */
  lemma RestartLosesOnlyUnsaved(env: Env, db: map<ChunkCoordinate, ChunkV1>, steps: seq<Step>, b: BlockCoordinate)
    requires GoodEnv(env) && GoodDb(env, db) && Runs(env, Start(db), steps)
    ensures var s := AfterRun(env, Start(db), steps);
      && Viewable(env, Start(db).store) && Viewable(env, s.store) && Viewable(env, Start(s.store.db).store)
      && (ChunkOf(b) !in s.store.unsaved ==>
            CellAt(env, Start(s.store.db).store, b) == Observed(env, b, Plain(env, Start(db), s.store.history, b)))
      && WillBeSaved(s, ChunkOf(b))
  {
    hide Runs, AfterRun, LocksHeld, Resident, ChunkOf, IndexOf;
    InvariantAtStart(env, db);
    InvariantOverRun(env, Start(db), Start(db), steps);
    var s := AfterRun(env, Start(db), steps);
    assert Durable(env, s, ChunkOf(b)) && WillBeSaved(s, ChunkOf(b));
    assert CellAt(env, s.store, b) == Observed(env, b, Plain(env, Start(db), s.store.history, b));
  }

  /** Once the flush at shutdown has unloaded every chunk, a new server on the database serves the same map. */
  lemma FlushPersists(env: Env, db: map<ChunkCoordinate, ChunkV1>, steps: seq<Step>, b: BlockCoordinate)
    requires GoodEnv(env) && GoodDb(env, db) && Runs(env, Start(db), steps)
    requires AfterRun(env, Start(db), steps).store.live == map[]
    ensures var s := AfterRun(env, Start(db), steps);
      && Viewable(env, Start(db).store) && Viewable(env, Start(s.store.db).store)
      && CellAt(env, Start(s.store.db).store, b) == Observed(env, b, Plain(env, Start(db), s.store.history, b))
  {
    hide Runs, AfterRun, CellAt, Plain;
    RestartLosesOnlyUnsaved(env, db, steps, b);
  }
}
