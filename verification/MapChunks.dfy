/** A chunk of the map: its blocks, their extended data, and its database form
    (`MapChunk`, `parse_v1`, cuberef_server/src/game_state/game_map.rs). */
module MapChunks {
  import opened Wrappers
  import opened Coordinates
  import opened Items
  import opened Inventories
  import DbKeys

  type BlockId = u32

  type byte = DbKeys.byte

  /** In-memory data of a block type's own; its content matters to the block type's handlers only. */
  datatype CustomData = CustomData(content: seq<int>)

  datatype StoredInventory = StoredInventory(dimensions: Dimensions, slots: seq<MaybeStack>)

  datatype ExtendedData = ExtendedData(customData: Option<CustomData>, inventories: map<string, StoredInventory>)

  /** What there is at one block. */
  datatype Cell = Cell(id: BlockId, ext: Option<ExtendedData>)

  datatype Contents = Contents(ids: seq<BlockId>, ext: map<BlockIndex, ExtendedData>)
  {
    predicate Valid() { |ids| == CHUNK_VOLUME }

    function Get(i: BlockIndex): Cell
      requires Valid()
    {
      Cell(ids[i], if i in ext then Some(ext[i]) else None)
    }

    function Set(i: BlockIndex, c: Cell): Contents
      requires Valid()
    {
      Contents(ids[i := c.id], if c.ext.Some? then ext[i := c.ext.value] else ext - {i})
    }
  }

  /** A written cell is read back, the others are as before, and two chunks with equal cells are equal. */
  lemma GetAfterSet(c: Contents, i: BlockIndex, cell: Cell, j: BlockIndex)
    requires c.Valid()
    ensures c.Set(i, cell).Valid() && c.Set(i, cell).Get(j) == if i == j then cell else c.Get(j)
  {
  }

  lemma SameCells(a: Contents, b: Contents)
    requires a.Valid() && b.Valid()
    requires forall i: BlockIndex :: a.Get(i) == b.Get(i)
    ensures a == b
  {
    assert forall i :: 0 <= i < CHUNK_VOLUME ==> a.ids[i] == a.Get(i).id;
    assert a.ids == b.ids;
    forall i: BlockIndex
      ensures i in a.ext <==> i in b.ext
      ensures i in a.ext ==> a.ext[i] == b.ext[i]
    {
      assert a.Get(i) == b.Get(i);
    }
    assert a.ext == b.ext;
  }

  // ----- edits of one block ----------------------------------------------------------------------------------------

  /** What a mutator makes of a block: its new cell, and whether it marked the extended data as changed. */
  datatype Mutated = Mutated(cell: Cell, setDirty: bool)

  type Mutator = Cell -> Mutated

  datatype Edit =
    | Get
    | Set(cell: Cell)
    | CompareAndSet(matches: Cell -> bool, cell: Cell)
    | Mutate(mutator: Mutator)

  /** The cell after an edit. */
  function After(e: Edit, before: Cell): Cell {
    match e
    case Get => before
    case Set(cell) => cell
    case CompareAndSet(matches, cell) => if matches(before) then cell else before
    case Mutate(mutator) => mutator(before).cell
  }

  /** Whether an edit marks the chunk as changed. */
  predicate MarksDirty(e: Edit, before: Cell) {
    match e
    case Get => false
    case Set(_) => true
    case CompareAndSet(matches, _) => matches(before)
    case Mutate(mutator) => mutator(before).cell.id != before.id || mutator(before).setDirty
  }

  /** Whether the editing thread asks for the chunk to be written back. */
  predicate Enqueues(e: Edit, before: Cell, dirty: bool) {
    match e
    case Get => false
    case Set(_) => true
    case CompareAndSet(matches, _) => matches(before)
    case Mutate(_) => dirty
  }

  datatype LiveChunk = LiveChunk(contents: Contents, dirty: bool)

  /** An edit of one block of a chunk in memory. */
  function EditChunk(chunk: LiveChunk, i: BlockIndex, e: Edit): LiveChunk
    requires chunk.contents.Valid()
  {
    var before := chunk.contents.Get(i);
    LiveChunk(chunk.contents.Set(i, After(e, before)), chunk.dirty || MarksDirty(e, before))
  }

  /** A chunk under the lock of its holder, changed in place. */
  class MapChunk {
    var blockIds: array<BlockId>
    var extendedData: map<BlockIndex, ExtendedData>
    var dirty: bool

    ghost predicate Valid()
      reads this`blockIds
    {
      blockIds.Length == CHUNK_VOLUME
    }

    function Value(): LiveChunk
      reads this, blockIds
    {
      LiveChunk(Contents(blockIds[..], extendedData), dirty)
    }

    constructor (chunk: LiveChunk)
      requires chunk.contents.Valid()
      ensures Valid() && Value() == chunk && fresh(blockIds)
    {
      var ids := chunk.contents.ids;
      blockIds := new BlockId[CHUNK_VOLUME](i requires 0 <= i < CHUNK_VOLUME => ids[i]);
      extendedData := chunk.contents.ext;
      dirty := chunk.dirty;
      new;
      assert blockIds[..] == ids;
    }

    /** Overwrites a block; returns what was there. */
    method Store(i: BlockIndex, cell: Cell) returns (previous: Cell)
      requires Valid()
      modifies this`extendedData, blockIds
      ensures Valid()
      ensures previous == old(Value().contents.Get(i))
      ensures Value() == LiveChunk(old(Value().contents).Set(i, cell), old(dirty))
      ensures forall j: BlockIndex ::
                Value().contents.Get(j) == if j == i then cell else old(Value().contents).Get(j)
    {
      previous := Cell(blockIds[i], if i in extendedData then Some(extendedData[i]) else None);
      if cell.ext.Some? {
        extendedData := extendedData[i := cell.ext.value];
      } else {
        extendedData := extendedData - {i};
      }
      ghost var was := blockIds[..];
      blockIds[i] := cell.id;
      assert blockIds[..] == was[i := cell.id];
    }

    /** `mutate_block_atomically` on a chunk: the extended data is taken out, handed to the mutator and put back. The
        block ends with the id and the data that the mutator gave it, and the chunk is marked as changed if the id is
        another or the mutator says so. */
    method MutateBlockAtomically(i: BlockIndex, mutator: Mutator)
      requires Valid()
      modifies this, blockIds
      ensures Valid() && blockIds == old(blockIds)
      ensures Value() == EditChunk(old(Value()), i, Mutate(mutator))
      ensures var found := old(Value().contents).Get(i);
        && (forall j: BlockIndex ::
              Value().contents.Get(j) == if j == i then mutator(found).cell else old(Value().contents).Get(j))
        && (dirty <==> old(dirty) || mutator(found).cell.id != found.id || mutator(found).setDirty)
    {
      ghost var was := Value().contents;
      var data := if i in extendedData then Some(extendedData[i]) else None;
      extendedData := extendedData - {i};
      var oldId := blockIds[i];
      var result := mutator(Cell(oldId, data));
      if result.cell.ext.Some? {
        extendedData := extendedData[i := result.cell.ext.value];
      }
      assert extendedData == was.Set(i, result.cell).ext;
      if result.cell.id != oldId {
        blockIds[i] := result.cell.id;
        dirty := true;
      }
      assert blockIds[..] == was.Set(i, result.cell).ids;
      if result.setDirty {
        dirty := true;
      }
    }
  }
}
