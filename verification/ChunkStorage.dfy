/** The database form of a chunk (`serialize`, `parse_v1`, cuberef_server/src/game_state/game_map.rs). */
module ChunkStorage {
  import opened Wrappers
  import opened Coordinates
  import opened Inventories
  import opened MapChunks

  datatype StorageError = UnknownBlock | HandlerFailed | BadLength | BadOffset | BadInventory

  datatype ExtDataHandling = NoExtData | ServerSide

  type Serializer = CustomData -> Result<Option<seq<byte>>, StorageError>

  type Deserializer = seq<byte> -> Result<Option<CustomData>, StorageError>

  /** What a block type says about its extended data. */
  datatype DataDef = DataDef(
    handling: ExtDataHandling, serialize: Option<Serializer>, deserialize: Option<Deserializer>)

  /** The registered block types, by block id. */
  type DataDefs = BlockId -> Option<DataDef>

  datatype ExtDataProto = ExtDataProto(
    offsetInChunk: u32, serializedData: seq<byte>, inventories: map<string, InventoryProto>)

  datatype ChunkV1 = ChunkV1(blockIds: seq<BlockId>, extendedData: seq<ExtDataProto>)

  // ----- one block -------------------------------------------------------------------------------------------------

  predicate IsEmptyData(e: ExtendedData) { e.customData.None? && e.inventories == map[] }

  function SerializeCustom(def: DataDef, data: Option<CustomData>): Result<Option<seq<byte>>, StorageError> {
    if data.None? || def.serialize.None? then Ok(None) else def.serialize.value(data.value)
  }

  /** The stored entry of one block's extended data; none when there is nothing in it. */
  function ToEntry(defs: DataDefs, i: BlockIndex, id: BlockId, e: ExtendedData)
    : Result<seq<ExtDataProto>, StorageError>
  {
    var def := defs(id);
    if def.None? then Err(UnknownBlock)
    else if IsEmptyData(e) then Ok([])
    else
      var data := SerializeCustom(def.value, e.customData);
      if data.Err? then Err(data.error)
      else Ok([ExtDataProto(i, if data.value.Some? then data.value.value else [],
                            InventoriesToProto(e.inventories))])
  }

  function ParseInventories(p: map<string, InventoryProto>): Result<map<string, StoredInventory>, StorageError> {
    if exists k :: k in p && FromProto(p[k]).Err? then Err(BadInventory)
    else Ok(map k | k in p :: StoredInventory(FromProto(p[k]).value.0, FromProto(p[k]).value.1))
  }

  /** The extended data a stored entry gives to a block of the given type; none for a type that has no extended data. */
  function FromEntryAt(defs: DataDefs, id: BlockId, p: ExtDataProto): Result<Option<ExtendedData>, StorageError> {
    var def := defs(id);
    if def.None? then Err(UnknownBlock)
    else if def.value.handling.NoExtData? then Ok(None)
    else
      var custom := if def.value.deserialize.Some? then def.value.deserialize.value(p.serializedData) else Ok(None);
      if custom.Err? then Err(custom.error)
      else
        var inventories := ParseInventories(p.inventories);
        if inventories.Err? then Err(inventories.error)
        else Ok(Some(ExtendedData(custom.value, inventories.value)))
  }

  function FromEntry(defs: DataDefs, ids: seq<BlockId>, p: ExtDataProto): Result<Option<ExtendedData>, StorageError>
    requires |ids| == CHUNK_VOLUME
  {
    if p.offsetInChunk >= CHUNK_VOLUME then Err(BadOffset) else FromEntryAt(defs, ids[p.offsetInChunk], p)
  }

  // ----- a chunk ---------------------------------------------------------------------------------------------------

  function EntriesAt(defs: DataDefs, c: Contents, i: BlockIndex): Result<seq<ExtDataProto>, StorageError>
    requires c.Valid()
  {
    if i in c.ext then ToEntry(defs, i, c.ids[i], c.ext[i]) else Ok([])
  }

  type Entries = Result<seq<ExtDataProto>, StorageError>

  function Prepend(a: seq<ExtDataProto>, r: Entries): Entries { if r.Err? || a == [] then r else Ok(a + r.value) }

  lemma PrependTwice(a: seq<ExtDataProto>, b: seq<ExtDataProto>, r: Entries)
    ensures Prepend(a, Prepend(b, r)) == Prepend(a + b, r)
    ensures Prepend(a, Ok([])) == Ok(a)
  {
    if r.Ok? { assert (a + b) + r.value == a + (b + r.value); }
    assert a + [] == a && [] + b == b;
  }

  /** The entries of the blocks from `i` on; the first error stops. */
  function EntriesFrom(defs: DataDefs, c: Contents, i: nat): Result<seq<ExtDataProto>, StorageError>
    requires c.Valid() && i <= CHUNK_VOLUME
    decreases CHUNK_VOLUME - i, |c.ids|
  {
    if i == CHUNK_VOLUME then Ok([])
    else
      var here := EntriesAt(defs, c, i);
      if here.Err? then here
      else
        Prepend(here.value, EntriesFrom(defs, c, i + 1))
  }

  function Serialized(defs: DataDefs, c: Contents): Result<ChunkV1, StorageError>
    requires c.Valid()
  {
    var entries := EntriesFrom(defs, c, 0);
    if entries.Err? then Err(entries.error) else Ok(ChunkV1(c.ids, entries.value))
  }

  /** The extended data of the entries from `k` on, added to what is known already. */
  function DataFrom(
    defs: DataDefs, ids: seq<BlockId>, entries: seq<ExtDataProto>, k: nat, known: map<BlockIndex, ExtendedData>)
    : Result<map<BlockIndex, ExtendedData>, StorageError>
    requires |ids| == CHUNK_VOLUME && k <= |entries|
    decreases |entries| - k
  {
    if k == |entries| then Ok(known)
    else
      var data := FromEntry(defs, ids, entries[k]);
      if data.Err? then Err(data.error)
      else if data.value.None? then DataFrom(defs, ids, entries, k + 1, known)
      else DataFrom(defs, ids, entries, k + 1, known[entries[k].offsetInChunk := data.value.value])
  }

  function Parsed(defs: DataDefs, v1: ChunkV1): Result<Contents, StorageError> {
    if |v1.blockIds| != CHUNK_VOLUME then Err(BadLength)
    else
      var data := DataFrom(defs, v1.blockIds, v1.extendedData, 0, map[]);
      if data.Err? then Err(data.error) else Ok(Contents(v1.blockIds, data.value))
  }

  /** `serialize` for the server: one pass over the blocks. */
  method Serialize(defs: DataDefs, c: Contents) returns (r: Result<ChunkV1, StorageError>)
    requires c.Valid()
    ensures r == Serialized(defs, c)
  {
    hide ToEntry;
    var extendedData := [];
    PrependTwice([], [], EntriesFrom(defs, c, 0));
    for index := 0 to CHUNK_VOLUME
      invariant EntriesFrom(defs, c, 0) == Prepend(extendedData, EntriesFrom(defs, c, index))
    {
      if index in c.ext {
        var entry := ToEntry(defs, index, c.ids[index], c.ext[index]);
        if entry.Err? {
          return Err(entry.error);
        }
        PrependTwice(extendedData, entry.value, EntriesFrom(defs, c, index + 1));
        extendedData := extendedData + entry.value;
      }
    }
    PrependTwice(extendedData, [], Ok([]));
    r := Ok(ChunkV1(c.ids, extendedData));
  }

  /** `parse_v1`: one pass over the stored entries. */
  method ParseV1(defs: DataDefs, v1: ChunkV1) returns (r: Result<Contents, StorageError>)
    ensures r == Parsed(defs, v1)
  {
    if |v1.blockIds| != CHUNK_VOLUME {
      return Err(BadLength);
    }
    var extendedData: map<BlockIndex, ExtendedData> := map[];
    for k := 0 to |v1.extendedData|
      invariant DataFrom(defs, v1.blockIds, v1.extendedData, 0, map[])
             == DataFrom(defs, v1.blockIds, v1.extendedData, k, extendedData)
    {
      var entry := v1.extendedData[k];
      var data := FromEntry(defs, v1.blockIds, entry);
      if data.Err? {
        return Err(data.error);
      }
      if data.value.Some? {
        extendedData := extendedData[entry.offsetInChunk := data.value.value];
      }
    }
    r := Ok(Contents(v1.blockIds, extendedData));
  }

  // ----- round trip ------------------------------------------------------------------------------------------------

  /** An inventory that its database form can hold. */
  predicate StorableInventory(inv: StoredInventory) {
    && |inv.slots| == Size(inv.dimensions) && 0 < Size(inv.dimensions) <= U32_MAX
    && forall i :: 0 <= i < |inv.slots| && inv.slots[i].Some? ==> inv.slots[i].value.itemName != ""
  }

  /** The block type's handlers are inverse on this data; absent data, and data without a serializer, count as no
      bytes, and a type without a deserializer has no data. */
  predicate StorableCustom(def: DataDef, data: Option<CustomData>) {
    var bytes := SerializeCustom(def, data);
    && bytes.Ok?
    && (def.deserialize.None? ==> data.None?)
    && (def.deserialize.Some? ==>
          def.deserialize.value(if bytes.value.Some? then bytes.value.value else []) == Ok(data))
  }

  /** Extended data that survives storage: non-empty, on a block type that has extended data, and storable in parts. */
  predicate Storable(defs: DataDefs, id: BlockId, e: ExtendedData) {
    && defs(id).Some? && defs(id).value.handling.ServerSide?
    && !IsEmptyData(e)
    && StorableCustom(defs(id).value, e.customData)
    && forall k :: k in e.inventories ==> StorableInventory(e.inventories[k])
  }

  /** What becomes of one block's extended data: None when it is dropped, an error when it cannot be written or read
      back. */
  function AfterStorage(defs: DataDefs, id: BlockId, i: BlockIndex, e: ExtendedData)
    : Result<Option<ExtendedData>, StorageError>
  {
    var entry := ToEntry(defs, i, id, e);
    if entry.Err? then Err(entry.error)
    else if entry.value == [] then Ok(None)
    else FromEntryAt(defs, id, entry.value[0])
  }

  lemma InventoryKept(inv: StoredInventory)
    ensures FromProto(ToProto(inv.dimensions, inv.slots)) == Ok((inv.dimensions, inv.slots)) <==> StorableInventory(inv)
  {
    ProtoRoundTrip(inv.dimensions, inv.slots);
  }

  function InventoriesToProto(invs: map<string, StoredInventory>): map<string, InventoryProto> {
    map k | k in invs :: ToProto(invs[k].dimensions, invs[k].slots)
  }

  lemma InventoriesKept(invs: map<string, StoredInventory>)
    ensures ParseInventories(InventoriesToProto(invs)) == Ok(invs) <==>
            forall k :: k in invs ==> StorableInventory(invs[k])
  {
    hide FromProto, ToProto, StorableInventory;
    var p := InventoriesToProto(invs);
    forall k | k in invs
      ensures FromProto(p[k]) == Ok((invs[k].dimensions, invs[k].slots)) <==> StorableInventory(invs[k])
    {
      InventoryKept(invs[k]);
    }
    if forall k :: k in invs ==> StorableInventory(invs[k]) {
      assert ParseInventories(p).Ok? && ParseInventories(p).value == invs;
    }
    if ParseInventories(p) == Ok(invs) {
      forall k | k in invs ensures StorableInventory(invs[k]) {
        assert k in p && FromProto(p[k]).Ok?;
        assert ParseInventories(p).value[k] == StoredInventory(FromProto(p[k]).value.0, FromProto(p[k]).value.1);
      }
    }
  }

  /** A block's extended data is read back unchanged exactly when it is storable. */
  lemma KeptExactly(defs: DataDefs, id: BlockId, i: BlockIndex, e: ExtendedData)
    ensures AfterStorage(defs, id, i, e) == Ok(Some(e)) <==> Storable(defs, id, e)
  {
    InventoriesKept(e.inventories);
    hide InventoriesToProto, ParseInventories, StorableInventory;
  }

  /** The contents read back from what was stored. */
  function SavedForm(defs: DataDefs, c: Contents): Contents
    requires c.Valid()
  {
    Contents(c.ids, map i |
        && i in c.ext && AfterStorage(defs, c.ids[i], i, c.ext[i]).Ok?
        && AfterStorage(defs, c.ids[i], i, c.ext[i]).value.Some?
      :: AfterStorage(defs, c.ids[i], i, c.ext[i]).value.value)
  }

  /** Every block's extended data can be stored and read back somehow. */
  predicate Readable(defs: DataDefs, c: Contents)
    requires c.Valid()
  {
    forall i :: i in c.ext ==> AfterStorage(defs, c.ids[i], i, c.ext[i]).Ok?
  }

  /** What the blocks below `i` leave after storage. */
  function SavedBelow(defs: DataDefs, c: Contents, i: nat): map<BlockIndex, ExtendedData>
    requires c.Valid()
  {
    map j | j in SavedForm(defs, c).ext && j < i :: SavedForm(defs, c).ext[j]
  }

  lemma SavedBelowStep(defs: DataDefs, c: Contents, i: BlockIndex)
    requires c.Valid()
    ensures var saved := SavedForm(defs, c).ext;
      SavedBelow(defs, c, i + 1) ==
        if i in saved then SavedBelow(defs, c, i)[i := saved[i]] else SavedBelow(defs, c, i)
  {
  }

  lemma {:induction false} DataOfEntries(defs: DataDefs, c: Contents, i: nat, prefix: seq<ExtDataProto>)
    requires c.Valid() && Readable(defs, c) && i <= CHUNK_VOLUME
    requires EntriesFrom(defs, c, i).Ok?
    ensures DataFrom(defs, c.ids, prefix + EntriesFrom(defs, c, i).value, |prefix|, SavedBelow(defs, c, i))
         == Ok(SavedForm(defs, c).ext)
    decreases CHUNK_VOLUME - i
  {
    hide FromEntry, ToEntry, AfterStorage, SavedForm, SavedBelow, Readable, EntriesAt;
    var entries := EntriesFrom(defs, c, i).value;
    if i == CHUNK_VOLUME {
      SavedBelowAll(defs, c);
      assert prefix + entries == prefix;
    } else {
      var here, rest := EntriesAt(defs, c, i).value, EntriesFrom(defs, c, i + 1).value;
      assert entries == here + rest;
      assert prefix + entries == (prefix + here) + rest;
      DataOfEntries(defs, c, i + 1, prefix + here);
      EntryShape(defs, c, i);
      SavedBelowStep(defs, c, i);
      if here == [] {
        assert prefix + here == prefix;
      } else {
        assert (prefix + entries)[|prefix|] == here[0];
      }
    }
  }

  lemma SavedBelowAll(defs: DataDefs, c: Contents)
    requires c.Valid()
    ensures SavedBelow(defs, c, CHUNK_VOLUME) == SavedForm(defs, c).ext
  {
  }

  lemma EntryShape(defs: DataDefs, c: Contents, i: BlockIndex)
    requires c.Valid() && Readable(defs, c) && EntriesAt(defs, c, i).Ok?
    ensures var here := EntriesAt(defs, c, i).value;
      && |here| <= 1
      && (here == [] ==> i !in SavedForm(defs, c).ext)
      && (here != [] ==>
            && here[0].offsetInChunk == i
            && FromEntry(defs, c.ids, here[0]) ==
                 Ok(if i in SavedForm(defs, c).ext then Some(SavedForm(defs, c).ext[i]) else None))
  {
  }

  /** Storing a chunk and reading it back gives the same 4096 block ids, and of the extended data what each block's
      type keeps of it, block by block. */
  lemma StoredAndParsed(defs: DataDefs, c: Contents)
    requires c.Valid() && Readable(defs, c) && Serialized(defs, c).Ok?
    ensures Parsed(defs, Serialized(defs, c).value) == Ok(SavedForm(defs, c))
  {
    DataOfEntries(defs, c, 0, []);
    assert [] + EntriesFrom(defs, c, 0).value == EntriesFrom(defs, c, 0).value;
    assert SavedBelow(defs, c, 0) == map[];
  }

  lemma {:induction false} ReadableSerializes(defs: DataDefs, c: Contents, i: nat)
    requires c.Valid() && Readable(defs, c) && i <= CHUNK_VOLUME
    ensures EntriesFrom(defs, c, i).Ok?
    decreases CHUNK_VOLUME - i
  {
    if i < CHUNK_VOLUME { ReadableSerializes(defs, c, i + 1); }
  }

  /** A chunk can be written exactly if each block's extended data can be. */
  lemma {:induction false} SerializedFrom(defs: DataDefs, c: Contents, i: nat)
    requires c.Valid() && i <= CHUNK_VOLUME
    ensures EntriesFrom(defs, c, i).Ok? <==> forall j: BlockIndex :: j >= i ==> EntriesAt(defs, c, j).Ok?
    decreases CHUNK_VOLUME - i
  {
    hide EntriesAt;
    if i < CHUNK_VOLUME { SerializedFrom(defs, c, i + 1); }
  }

  /** A written chunk that is read back whole could be read back block by block. */
  lemma {:induction false} ParsedIsReadable(
    defs: DataDefs, ids: seq<BlockId>, entries: seq<ExtDataProto>, k: nat, known: map<BlockIndex, ExtendedData>, j: nat)
    requires |ids| == CHUNK_VOLUME && k <= j < |entries| && DataFrom(defs, ids, entries, k, known).Ok?
    ensures FromEntry(defs, ids, entries[j]).Ok?
    decreases |entries| - k
  {
    hide FromEntryAt;
    if k < j {
      var data := FromEntry(defs, ids, entries[k]).value;
      ParsedIsReadable(defs, ids, entries, k + 1,
        if data.None? then known else known[entries[k].offsetInChunk := data.value], j);
    }
  }

  lemma {:induction false} EntryIsIn(defs: DataDefs, c: Contents, i: nat, j: BlockIndex)
    requires c.Valid() && i <= j && EntriesFrom(defs, c, i).Ok?
    ensures EntriesAt(defs, c, j).Ok?
    ensures forall p :: p in EntriesAt(defs, c, j).value ==> p in EntriesFrom(defs, c, i).value
    decreases CHUNK_VOLUME - i
  {
    hide EntriesAt;
    if i < j { EntryIsIn(defs, c, i + 1, j); }
  }

  /** Whatever is written and read back at all was readable block by block. */
  lemma ParsedChunkIsReadable(defs: DataDefs, c: Contents)
    requires c.Valid() && Serialized(defs, c).Ok? && Parsed(defs, Serialized(defs, c).value).Ok?
    ensures Readable(defs, c)
  {
    hide EntriesFrom, DataFrom, FromEntryAt, ToEntry;
    var entries := EntriesFrom(defs, c, 0).value;
    forall i | i in c.ext ensures AfterStorage(defs, c.ids[i], i, c.ext[i]).Ok? {
      EntryIsIn(defs, c, 0, i);
      var here := EntriesAt(defs, c, i).value;
      if here != [] {
        EntryOffset(defs, i, c.ids[i], c.ext[i]);
        assert here[0] in entries;
        var j :| 0 <= j < |entries| && entries[j] == here[0];
        ParsedIsReadable(defs, c.ids, entries, 0, map[], j);
      }
    }
  }

  lemma EntryOffset(defs: DataDefs, i: BlockIndex, id: BlockId, e: ExtendedData)
    requires ToEntry(defs, i, id, e).Ok? && ToEntry(defs, i, id, e).value != []
    ensures ToEntry(defs, i, id, e).value[0].offsetInChunk == i
  {
  }

  /** A chunk comes back from storage as it was, extended data included, exactly when all its extended data is
      storable: non-empty, on block types that allow it, with inverse handlers and well-formed inventories. */
  lemma ChunkRoundTrip(defs: DataDefs, c: Contents)
    requires c.Valid()
    ensures (Serialized(defs, c).Ok? && Parsed(defs, Serialized(defs, c).value) == Ok(c)) <==>
            (forall i :: i in c.ext ==> Storable(defs, c.ids[i], c.ext[i]))
  {
    hide Serialized, Parsed, AfterStorage, Storable;
    forall i | i in c.ext
      ensures AfterStorage(defs, c.ids[i], i, c.ext[i]) == Ok(Some(c.ext[i])) <==> Storable(defs, c.ids[i], c.ext[i])
    {
      KeptExactly(defs, c.ids[i], i, c.ext[i]);
    }
    var saved := SavedForm(defs, c);
    if forall i :: i in c.ext ==> Storable(defs, c.ids[i], c.ext[i]) {
      assert saved.ext == c.ext;
      Stores(defs, c);
    }
    if Serialized(defs, c).Ok? && Parsed(defs, Serialized(defs, c).value) == Ok(c) {
      ParsedChunkIsReadable(defs, c);
      StoredAndParsed(defs, c);
      forall i | i in c.ext ensures AfterStorage(defs, c.ids[i], i, c.ext[i]) == Ok(Some(c.ext[i])) {
        assert saved.ext[i] == c.ext[i];
      }
    }
  }

  /** A chunk that is readable block by block is written, and read back in its saved form. */
  lemma Stores(defs: DataDefs, c: Contents)
    requires c.Valid() && Readable(defs, c)
    ensures Serialized(defs, c).Ok? && Parsed(defs, Serialized(defs, c).value) == Ok(SavedForm(defs, c))
  {
    hide EntriesFrom, DataFrom, AfterStorage;
    ReadableSerializes(defs, c, 0);
    StoredAndParsed(defs, c);
  }

  /** A block type whose deserializer makes something of no bytes, as the furnace's does: a block of that type with an
      inventory and no data of its own comes back with data. */
  lemma DefaultingDeserializerAddsData(initial: CustomData)
    ensures var def := DataDef(ServerSide, Some(_ => Ok(Some([]))), Some(_ => Ok(Some(initial))));
      var defs: DataDefs := _ => Some(def);
      var inv := StoredInventory(Dimensions(1, 1), [None]);
      var e := ExtendedData(None, map["furnace_input" := inv]);
      && StorableInventory(inv)
      && AfterStorage(defs, 0, 0, e) == Ok(Some(e.(customData := Some(initial))))
  {
    var inv := StoredInventory(Dimensions(1, 1), [None]);
    var invs := map["furnace_input" := inv];
    InventoriesKept(invs);
    var def := DataDef(ServerSide, Some(_ => Ok(Some([]))), Some(_ => Ok(Some(initial))));
    var defs: DataDefs := _ => Some(def);
    var e := ExtendedData(None, invs);
    var entry := ExtDataProto(0, [], InventoriesToProto(invs));
    assert "furnace_input" in invs;
    assert ToEntry(defs, 0, 0, e) == Ok([entry]);
    assert FromEntryAt(defs, 0, entry) == Ok(Some(e.(customData := Some(initial))));
  }
}
