/** The served map told from the accesses themselves: each finds and leaves what the access before it on the same block
    left (`ServerGameMap`, cuberef_server/src/game_state/game_map.rs). */
module MapHistory {
  import opened Wrappers
  import opened Coordinates
  import opened MapChunks
  import opened ChunkStorage
  import opened MapProtocol

  /** `cell` is what an access leaves at its block: the block that it found, the one it was given, the one it was given
      if that found matched, or the id and the data that its mutator made of the one found. */
  predicate LeftBy(e: Event, cell: Cell) {
    && (e.edit.Get? ==> cell == e.before)
    && (e.edit.Set? ==> cell == e.edit.cell)
    && (e.edit.CompareAndSet? && e.edit.matches(e.before) ==> cell == e.edit.cell)
    && (e.edit.CompareAndSet? && !e.edit.matches(e.before) ==> cell == e.before)
    && (e.edit.Mutate? ==> cell == e.edit.mutator(e.before).cell)
  }

  /** None of the accesses from the `from`-th up to the `to`-th is to the block. */
  predicate Untouched(history: seq<Event>, b: BlockCoordinate, from: nat, to: nat) {
    forall k :: from <= k < to && k < |history| ==> history[k].block != b
  }

  lemma {:induction false} PlainIsLastLeft(
    env: Env, start: Server, history: seq<Event>, b: BlockCoordinate, k: nat, cell: Cell)
    requires Current(env, start.store, ChunkOf(b)).Valid()
    requires k < |history| && history[k].block == b && Untouched(history, b, k + 1, |history|)
    requires LeftBy(history[k], cell)
    ensures Plain(env, start, history, b) == cell
    decreases |history|
  {
    hide ChunkOf, IndexOf, CellAt, Current;
    if k < |history| - 1 {
      assert history[|history| - 1].block != b;
      PlainIsLastLeft(env, start, history[..|history| - 1], b, k, cell);
    }
  }

  lemma {:induction false} PlainIsStart(env: Env, start: Server, history: seq<Event>, b: BlockCoordinate)
    requires Current(env, start.store, ChunkOf(b)).Valid() && Untouched(history, b, 0, |history|)
    ensures Plain(env, start, history, b) == CellAt(env, start.store, b)
    decreases |history|
  {
    hide ChunkOf, IndexOf, CellAt, Current;
    if history != [] {
      assert history[|history| - 1].block != b;
      PlainIsStart(env, start, history[..|history| - 1], b);
    }
  }

  /** In every run, a block is served as the last access to it left it, and as it was in the database or generated if
      there was none. */
  lemma ServedIsLastLeft(
    env: Env, db: map<ChunkCoordinate, ChunkV1>, steps: seq<Step>, b: BlockCoordinate, k: nat, cell: Cell)
    requires GoodEnv(env) && GoodDb(env, db) && Runs(env, Start(db), steps)
    ensures var s := AfterRun(env, Start(db), steps);
      && Viewable(env, Start(db).store) && Viewable(env, s.store)
      && (Untouched(s.store.history, b, 0, |s.store.history|) ==>
            CellAt(env, s.store, b) == CellAt(env, Start(db).store, b))
      && (k < |s.store.history| && s.store.history[k].block == b
          && Untouched(s.store.history, b, k + 1, |s.store.history|) && LeftBy(s.store.history[k], cell) ==>
            CellAt(env, s.store, b) == Observed(env, b, cell))
  {
    hide ChunkOf, IndexOf, Current, Runs, AfterRun, LeftBy, Plain;
    CacheRefinesPlainMap(env, db, steps);
    var start, s := Start(db), AfterRun(env, Start(db), steps);
    assert CellAt(env, s.store, b) == Observed(env, b, Plain(env, start, s.store.history, b));
    if Untouched(s.store.history, b, 0, |s.store.history|) {
      PlainIsStart(env, start, s.store.history, b);
    } else if k < |s.store.history| && s.store.history[k].block == b
           && Untouched(s.store.history, b, k + 1, |s.store.history|) && LeftBy(s.store.history[k], cell) {
      PlainIsLastLeft(env, start, s.store.history, b, k, cell);
    }
  }

  /** And each access found its block as the access to it before had left it, which was the `j`-th, or as it was at the
      start. */
  lemma FoundIsLastLeft(
    env: Env, db: map<ChunkCoordinate, ChunkV1>, steps: seq<Step>, j: nat, k: nat, cell: Cell)
    requires GoodEnv(env) && GoodDb(env, db) && Runs(env, Start(db), steps)
    requires k < |AfterRun(env, Start(db), steps).store.history|
    ensures var history := AfterRun(env, Start(db), steps).store.history;
      var b := history[k].block;
      && Viewable(env, Start(db).store)
      && (Untouched(history, b, 0, k) ==>
            Observed(env, b, history[k].before) == CellAt(env, Start(db).store, b))
      && (j < k && history[j].block == b && Untouched(history, b, j + 1, k) && LeftBy(history[j], cell) ==>
            Observed(env, b, history[k].before) == Observed(env, b, cell))
  {
    hide ChunkOf, IndexOf, Current, Runs, AfterRun, LeftBy, Plain;
    CacheRefinesPlainMap(env, db, steps);
    var start, history := Start(db), AfterRun(env, Start(db), steps).store.history;
    var b := history[k].block;
    assert FoundPlain(env, start, history, k);
    if Untouched(history, b, 0, k) {
      PlainIsStart(env, start, history[..k], b);
    } else if j < k && history[j].block == b && Untouched(history, b, j + 1, k) && LeftBy(history[j], cell) {
      PlainIsLastLeft(env, start, history[..k], b, j, cell);
    }
  }
}
