/** The ids of block types: registration, storage and lookup (`BlockTypeManager`,
    cuberef_server/src/game_state/blocks.rs). */
module BlockRegistry {
  import opened Wrappers

  datatype BlockType = BlockType(shortName: string, isUnknown: bool, id: nat)

  datatype Registry = Registry(blocks: seq<BlockType>, ids: map<string, nat>)

  datatype Assignment = Assignment(shortName: string, id: u32)

  datatype RegistryError = AlreadyExists | TooManyBlocks | VariantBitsNonzero

  /** Block ids have 12 bits of variant below the index of the type. */
  const VARIANTS: nat := 4096

  const U32_COUNT: nat := 0x1_0000_0000

  function BaseId(index: nat): nat { index * VARIANTS }

  function PlaceOf(id: nat): nat { id / VARIANTS }

  // ----- what the operations do ------------------------------------------------------------------------------------

  /** The names point to distinct blocks, each block carries the id of its place, and a block that was really registered
      is found under its name. */
  ghost predicate WellFormed(r: Registry) {
    && BaseId(|r.blocks|) <= U32_COUNT
    && (forall i :: 0 <= i < |r.blocks| ==> r.blocks[i].id == BaseId(i))
    && (forall n :: n in r.ids ==> PlaceOf(r.ids[n]) < |r.blocks| && r.ids[n] == BaseId(PlaceOf(r.ids[n])))
    && (forall m, n :: m in r.ids && n in r.ids && r.ids[m] == r.ids[n] ==> m == n)
    && (forall i :: 0 <= i < |r.blocks| && !r.blocks[i].isUnknown ==>
          r.blocks[i].shortName in r.ids && r.ids[r.blocks[i].shortName] == BaseId(i))
  }

  /** Registering a block under a name: the place kept for it, or a new one at the end. */
  function Registered(r: Registry, name: string): Result<(Registry, nat), RegistryError>
    requires name in r.ids ==> PlaceOf(r.ids[name]) < |r.blocks|
  {
    if name in r.ids then
      var id := r.ids[name];
      if !r.blocks[PlaceOf(id)].isUnknown then Err(AlreadyExists)
      else Ok((r.(blocks := r.blocks[PlaceOf(id) := BlockType(name, false, BaseId(PlaceOf(id)))]), id))
    else if BaseId(|r.blocks|) >= U32_COUNT then Err(TooManyBlocks)
    else
      var id := BaseId(|r.blocks|);
      Ok((Registry(r.blocks + [BlockType(name, false, id)], r.ids[name := id]), id))
  }

  /** What is saved: the blocks registered in this run. */
  function ToProto(blocks: seq<BlockType>): seq<Assignment>
    requires forall i :: 0 <= i < |blocks| ==> blocks[i].id < U32_COUNT
  {
    if blocks == [] then []
    else
      var last := blocks[|blocks| - 1];
      ToProto(blocks[..|blocks| - 1]) + if last.isUnknown then [] else [Assignment(last.shortName, last.id)]
  }

  function Hex(n: nat): string {
    if n < 16 then [HEX_DIGITS[n]] else Hex(n / 16) + [HEX_DIGITS[n % 16]]
  }

  const HEX_DIGITS: string := "0123456789abcdef"

  function PlaceholderName(i: nat): string { "by_id:0x" + Hex(BaseId(i)) }

  function Placeholders(n: nat): (r: seq<BlockType>)
    ensures |r| == n
    ensures forall i :: 0 <= i < n ==> r[i] == BlockType(PlaceholderName(i), true, BaseId(i))
  {
    if n == 0 then [] else Placeholders(n - 1) + [BlockType(PlaceholderName(n - 1), true, BaseId(n - 1))]
  }

  function PresentIndices(proto: seq<Assignment>): set<nat> { set a | a in proto :: PlaceOf(a.id) }

  function MaxIndex(proto: seq<Assignment>): nat {
    if proto == [] then 0
    else
      var rest, last := MaxIndex(proto[..|proto| - 1]), PlaceOf(proto[|proto| - 1].id);
      if last > rest then last else rest
  }

  /** The names of the places below `n` that have no saved block. */
  function PlaceholderIds(present: set<nat>, n: nat): map<string, nat> {
    if n == 0 then map[]
    else
      var ids := PlaceholderIds(present, n - 1);
      if n - 1 in present then ids else ids[PlaceholderName(n - 1) := BaseId(n - 1)]
  }

  function Assigned(ids: map<string, nat>, proto: seq<Assignment>): map<string, nat> {
    if proto == [] then ids
    else
      var last := proto[|proto| - 1];
      Assigned(ids, proto[..|proto| - 1])[last.shortName := BaseId(PlaceOf(last.id))]
  }

  predicate NoVariants(proto: seq<Assignment>) { forall a :: a in proto ==> a.id % VARIANTS == 0 }

  /** Loading: placeholders for all places up to the last saved one, even if nothing was saved. */
  function FromProto(proto: seq<Assignment>): Result<Registry, RegistryError> {
    if !NoVariants(proto) then Err(VariantBitsNonzero)
    else
      var n := MaxIndex(proto) + 1;
      Ok(Registry(Placeholders(n), Assigned(PlaceholderIds(PresentIndices(proto), n), proto)))
  }

  // ----- the classes -----------------------------------------------------------------------------------------------

  /** A name that may be registered later, with the id once it is known. */
  class BlockTypeName {
    const name: string
    var baseId: u32

    constructor (name: string)
      ensures this.name == name && baseId == U32_MAX
    {
      this.name := name;
      baseId := U32_MAX;
    }
  }

  class BlockTypeManager {
    var blockTypes: seq<BlockType>
    var nameToBaseId: map<string, nat>

    ghost function Value(): Registry
      reads this
    {
      Registry(blockTypes, nameToBaseId)
    }

    constructor ()
      ensures Value() == Registry([], map[])
    {
      blockTypes, nameToBaseId := [], map[];
    }

    method RegisterBlock(name: string) returns (r: Result<nat, RegistryError>)
      requires WellFormed(Value())
      modifies this
      ensures match Registered(old(Value()), name)
              case Ok(p) => Value() == p.0 && r == Ok(p.1)
              case Err(e) => Value() == old(Value()) && r == Err(e)
      ensures WellFormed(Value())
      ensures r.Ok? ==> GetByName(name) == Some(r.value)
      ensures forall n :: n != name || r.Err? ==> GetByName(n) == old(GetByName(n))
      ensures old(GetByName(name)).Some? && r.Ok? ==> r.value == old(GetByName(name)).value
    {
      RegisterKeeps(Value(), name);
      if name in nameToBaseId {
        var id := nameToBaseId[name];
        if !blockTypes[PlaceOf(id)].isUnknown {
          return Err(AlreadyExists);
        }
        blockTypes := blockTypes[PlaceOf(id) := BlockType(name, false, BaseId(PlaceOf(id)))];
        r := Ok(id);
      } else {
        var newId := BaseId(|blockTypes|);
        if newId >= U32_COUNT {
          return Err(TooManyBlocks);
        }
        blockTypes := blockTypes + [BlockType(name, false, newId)];
        nameToBaseId := nameToBaseId[name := newId];
        r := Ok(newId);
      }
    }

    method Save() returns (proto: seq<Assignment>)
      requires WellFormed(Value())
      ensures (forall i :: 0 <= i < |blockTypes| ==> blockTypes[i].id < U32_COUNT) && proto == ToProto(blockTypes)
    {
      IdsFit(Value());
      proto := [];
      for i := 0 to |blockTypes|
        invariant proto == ToProto(blockTypes[..i])
      {
        assert blockTypes[..i + 1][..i] == blockTypes[..i];
        var block := blockTypes[i];
        if !block.isUnknown {
          proto := proto + [Assignment(block.shortName, block.id)];
        }
      }
      assert blockTypes[..|blockTypes|] == blockTypes;
    }

    method FindMaxIndex(proto: seq<Assignment>) returns (maxIndex: nat)
      ensures maxIndex == MaxIndex(proto)
    {
      hide PlaceOf;
      maxIndex := 0;
      for k := 0 to |proto|
        invariant maxIndex == MaxIndex(proto[..k])
      {
        assert proto[..k + 1][..k] == proto[..k];
        if PlaceOf(proto[k].id) > maxIndex {
          maxIndex := PlaceOf(proto[k].id);
        }
      }
      assert proto[..|proto|] == proto;
    }

    method MakePlaceholders(count: nat, presentIndices: set<nat>)
      requires blockTypes == [] && nameToBaseId == map[]
      modifies this
      ensures blockTypes == Placeholders(count) && nameToBaseId == PlaceholderIds(presentIndices, count)
    {
      hide PlaceholderName, BaseId;
      for i := 0 to count
        invariant blockTypes == Placeholders(i) && nameToBaseId == PlaceholderIds(presentIndices, i)
      {
        blockTypes := blockTypes + [BlockType(PlaceholderName(i), true, BaseId(i))];
        if i !in presentIndices {
          nameToBaseId := nameToBaseId[PlaceholderName(i) := BaseId(i)];
        }
      }
    }

    method AssignSaved(proto: seq<Assignment>) returns (ok: bool)
      modifies this`nameToBaseId
      ensures ok <==> NoVariants(proto)
      ensures ok ==> nameToBaseId == Assigned(old(nameToBaseId), proto)
    {
      hide BaseId, PlaceOf;
      for k := 0 to |proto|
        invariant NoVariants(proto[..k]) && nameToBaseId == Assigned(old(nameToBaseId), proto[..k])
      {
        assert proto[..k + 1][..k] == proto[..k] && proto[..k + 1] == proto[..k] + [proto[k]];
        if proto[k].id % VARIANTS != 0 {
          return false;
        }
        nameToBaseId := nameToBaseId[proto[k].shortName := BaseId(PlaceOf(proto[k].id))];
      }
      assert proto[..|proto|] == proto;
      ok := true;
    }

    /** Fills a new manager from what was saved. */
    method Load(proto: seq<Assignment>) returns (r: Result<(), RegistryError>)
      requires blockTypes == [] && nameToBaseId == map[]
      modifies this
      ensures match FromProto(proto)
              case Ok(registry) => r == Ok(()) && Value() == registry
              case Err(e) => r == Err(e)
    {
      hide Placeholders, PlaceholderIds, PresentIndices, MaxIndex, Assigned, NoVariants;
      var maxIndex := FindMaxIndex(proto);
      MakePlaceholders(maxIndex + 1, PresentIndices(proto));
      var ok := AssignSaved(proto);
      r := if ok then Ok(()) else Err(VariantBitsNonzero);
    }

    function GetByName(name: string): Option<nat>
      reads this
    {
      if name in nameToBaseId then Some(nameToBaseId[name]) else None
    }

    /** The id kept with a name is one that a lookup gives. */
    ghost predicate CacheValid(blockName: BlockTypeName)
      reads this, blockName
    {
      blockName.baseId != U32_MAX ==> GetByName(blockName.name) == Some(blockName.baseId)
    }

    method ResolveName(blockName: BlockTypeName) returns (r: Option<nat>)
      requires WellFormed(Value()) && CacheValid(blockName)
      modifies blockName
      ensures r == GetByName(blockName.name) && CacheValid(blockName)
      ensures r.Some? ==> blockName.baseId == r.value
    {
      var cached := blockName.baseId;
      if cached == U32_MAX {
        if blockName.name in nameToBaseId {
          var id := nameToBaseId[blockName.name];
          IdsFit(Value());
          blockName.baseId := id;
          r := Some(id);
        } else {
          r := None;
        }
      } else {
        r := Some(cached);
      }
    }
  }

  // ----- what registration keeps -----------------------------------------------------------------------------------

  lemma IdsFit(r: Registry)
    requires WellFormed(r)
    ensures forall i :: 0 <= i < |r.blocks| ==> r.blocks[i].id < U32_COUNT
    ensures forall n :: n in r.ids ==> r.ids[n] < U32_COUNT && r.ids[n] != U32_MAX
  {
  }

  lemma FillingKeeps(r: Registry, name: string)
    requires WellFormed(r) && name in r.ids && r.blocks[PlaceOf(r.ids[name])].isUnknown
    ensures Registered(r, name).Ok? && WellFormed(Registered(r, name).value.0)
  {
    hide BaseId, PlaceOf;
  }

  lemma GrowingKeeps(r: Registry, name: string)
    requires WellFormed(r) && name !in r.ids && BaseId(|r.blocks|) < U32_COUNT
    ensures Registered(r, name).Ok? && WellFormed(Registered(r, name).value.0)
  {
  }

  /** Registering keeps the registry well-formed, gives the name an id of its own that is its place shifted by 12 bits,
      and changes no id given before; a name can be registered once, and only 2 to the 20 of them. */
  lemma RegisterKeeps(r: Registry, name: string)
    requires WellFormed(r)
    ensures match Registered(r, name)
      case Ok((r', id)) =>
        && WellFormed(r')
        && name in r'.ids && r'.ids[name] == id && id == BaseId(PlaceOf(id)) && r'.blocks[PlaceOf(id)].shortName == name
        && (forall n :: n in r.ids ==> n in r'.ids && r'.ids[n] == r.ids[n])
        && (forall n :: n in r'.ids && n != name ==> n in r.ids && r'.ids[n] != id)
        && Registered(r', name) == Err(AlreadyExists)
      case Err(AlreadyExists) => name in r.ids && !r.blocks[PlaceOf(r.ids[name])].isUnknown
      case Err(_) => name !in r.ids && |r.blocks| == 0x10_0000
  {
    if name in r.ids {
      if r.blocks[PlaceOf(r.ids[name])].isUnknown { FillingKeeps(r, name); }
    } else if BaseId(|r.blocks|) < U32_COUNT {
      GrowingKeeps(r, name);
    }
  }

  /** What a lookup of a name gives after a registration: the id given to it then, and for every other name the same as
      before. */
  lemma LookupAfterRegister(r: Registry, name: string, other: string)
    requires WellFormed(r) && Registered(r, name).Ok?
    ensures var (r', id) := Registered(r, name).value;
      && name in r'.ids && r'.ids[name] == id && (name in r.ids ==> id == r.ids[name])
      && (other != name ==> (other in r'.ids <==> other in r.ids) && (other in r.ids ==> r'.ids[other] == r.ids[other]))
  {
    RegisterKeeps(r, name);
  }

  /** A name's kept id stays right while other blocks are registered, since ids do not change. */
  lemma KeptIdsStay(r: Registry, name: string, cached: nat, other: string)
    requires WellFormed(r) && name in r.ids && r.ids[name] == cached
    ensures Registered(r, other).Ok? ==>
              name in Registered(r, other).value.0.ids && Registered(r, other).value.0.ids[name] == cached
  {
    RegisterKeeps(r, other);
  }
}
