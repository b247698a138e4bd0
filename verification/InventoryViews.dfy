/** Views over transient, stored and in-block inventories (cuberef_server/src/game_state/inventory.rs). */
module InventoryViews {
  import opened Wrappers
  import opened Coordinates
  import opened Items
  import opened Inventories

  datatype InventoryKey = InventoryKey(uuid: nat)

  datatype BlockInventory = BlockInventory(coord: BlockCoordinate, key: string)

  type ViewId = nat

  datatype BorrowLocation =
    | Global(key: InventoryKey, slot: nat)
    | Block(inv: BlockInventory, slot: nat)
    | NotBorrowed
  {
    function Or(alternative: BorrowLocation): BorrowLocation { if NotBorrowed? then alternative else this }
  }

  datatype BorrowedStack = BorrowedStack(borrowsFrom: BorrowLocation, borrowedStack: ItemStack)

  datatype ViewBacking = Transient | Stored(key: InventoryKey) | StoredInBlock(inv: BlockInventory)

  datatype View = View(id: ViewId, dimensions: Dimensions, canPlace: bool, canTake: bool, takeExact: bool,
                       backing: ViewBacking)

  datatype ViewError = SlotOutOfRange | InventoryNotFound | BadInventory

  /** Where all items are: the inventory database, the inventories inside blocks, and the transient views. */
  datatype Stores = Stores(
    stored: map<InventoryKey, InventoryProto>,
    inBlock: map<BlockInventory, seq<MaybeStack>>,
    transient: map<ViewId, seq<Option<BorrowedStack>>>)

  type Content = Option<BorrowedStack>

  function StackOf(c: Content): MaybeStack { if c.Some? then Some(c.value.borrowedStack) else None }

  function Lend(s: MaybeStack, from: BorrowLocation): Content {
    if s.Some? then Some(BorrowedStack(from, s.value)) else None
  }

  function StacksOf(cells: seq<Content>): seq<MaybeStack> {
    seq(|cells|, i requires 0 <= i < |cells| => StackOf(cells[i]))
  }

  // ----- counting --------------------------------------------------------------------------------------------------

  ghost function StoredCounts(st: Stores, item: string): map<InventoryKey, nat> {
    map k | k in st.stored :: Total(SlotsFromProto(st.stored[k].contents), item)
  }

  ghost function BlockCounts(st: Stores, item: string): map<BlockInventory, nat> {
    map k | k in st.inBlock :: Total(st.inBlock[k], item)
  }

  ghost function TransientCounts(st: Stores, item: string): map<ViewId, nat> {
    map k | k in st.transient :: Total(StacksOf(st.transient[k]), item)
  }

  /** How many of `item` there are anywhere. */
  ghost function TotalItems(st: Stores, item: string): nat {
    SumMap(StoredCounts(st, item)) + SumMap(BlockCounts(st, item)) + SumMap(TransientCounts(st, item))
  }

  // ----- access to one slot through a view -------------------------------------------------------------------------

  function StoredSlots(st: Stores, key: InventoryKey): Result<(Dimensions, seq<MaybeStack>), ViewError> {
    if key !in st.stored then Err(InventoryNotFound) else
      var parsed := FromProto(st.stored[key]);
      if parsed.Err? then Err(BadInventory) else Ok(parsed.value)
  }

  /** What the constructors of views establish and nothing changes: a view is as large as its inventory. */
  predicate ViewFits(st: Stores, v: View) {
    match v.backing
    case Transient => v.id in st.transient && |st.transient[v.id]| == Size(v.dimensions)
    case Stored(key) =>
      StoredSlots(st, key).Ok? ==> |StoredSlots(st, key).value.1| == Size(v.dimensions)
    case StoredInBlock(inv) => inv in st.inBlock ==> |st.inBlock[inv]| == Size(v.dimensions)
  }

  /** Whether an access to a slot through the view goes through, and the error when not. */
  function Access(st: Stores, v: View, slot: nat): Result<bool, ViewError> {
    if slot >= Size(v.dimensions) then Err(SlotOutOfRange)
    else match v.backing
      case Transient => Ok(true)
      case Stored(key) => if StoredSlots(st, key).Err? then Err(StoredSlots(st, key).error) else Ok(true)
      case StoredInBlock(inv) => Ok(inv in st.inBlock)
  }

  /** The slot exists: accesses neither fail nor find the block's inventory missing. */
  predicate Present(st: Stores, v: View, slot: nat) { Access(st, v, slot) == Ok(true) }

  function ReadCell(st: Stores, v: View, slot: nat): Content
    requires ViewFits(st, v) && Present(st, v, slot)
  {
    match v.backing
    case Transient => st.transient[v.id][slot]
    case Stored(key) => Lend(StoredSlots(st, key).value.1[slot], Global(key, slot))
    case StoredInBlock(inv) => Lend(st.inBlock[inv][slot], Block(inv, slot))
  }

  /** Storing into a slot; only transient views remember where a stack was borrowed from. */
  function WriteCell(st: Stores, v: View, slot: nat, c: Content): Stores
    requires ViewFits(st, v) && Present(st, v, slot)
  {
    match v.backing
    case Transient => st.(transient := st.transient[v.id := st.transient[v.id][slot := c]])
    case Stored(key) =>
      var (d, slots) := StoredSlots(st, key).value;
      st.(stored := st.stored[key := ToProto(d, slots[slot := StackOf(c)])])
    case StoredInBlock(inv) => st.(inBlock := st.inBlock[inv := st.inBlock[inv][slot := StackOf(c)]])
  }

  /** `take`: the stores afterwards and the stack obtained. */
  function TakeFromView(st: Stores, v: View, slot: nat, count: Option<u32>): (Stores, Result<Content, ViewError>)
    requires ViewFits(st, v)
  {
    var access := Access(st, v, slot);
    if access.Err? then (st, Err(access.error))
    else if !access.value then (st, Ok(None))
    else
      var cell := ReadCell(st, v, slot);
      var from := if cell.Some? then cell.value.borrowsFrom else NotBorrowed;
      var (rest, taken) := Take(StackOf(cell), count);
      (WriteCell(st, v, slot, Lend(rest, from)), Ok(Lend(taken, from)))
  }

  /** `put`: the stores afterwards and the stack left over. */
  function PutIntoView(st: Stores, v: View, slot: nat, stack: BorrowedStack): (Stores, Result<Content, ViewError>)
    requires ViewFits(st, v)
  {
    var access := Access(st, v, slot);
    if access.Err? then (st, Err(access.error))
    else if !access.value then (st, Ok(Some(stack)))
    else
      var cell := ReadCell(st, v, slot);
      var from := if cell.Some? then cell.value.borrowsFrom.Or(stack.borrowsFrom) else stack.borrowsFrom;
      var (merged, leftover) := Merge(StackOf(cell), Some(stack.borrowedStack));
      (WriteCell(st, v, slot, Lend(merged, from)), Ok(Lend(leftover, stack.borrowsFrom)))
  }

  /** `peek`: the stacks a view shows; None when its inventory cannot be read. */
  function Peek(st: Stores, v: View): Option<seq<MaybeStack>>
    requires ViewFits(st, v)
  {
    match v.backing
    case Transient => Some(StacksOf(st.transient[v.id]))
    case Stored(key) => if StoredSlots(st, key).Ok? then Some(StoredSlots(st, key).value.1) else None
    case StoredInBlock(inv) => Some(if inv in st.inBlock then st.inBlock[inv] else [])
  }

  // ----- laws of slot access ---------------------------------------------------------------------------------------

  predicate SameBacking(v: View, w: View) { v.backing == w.backing && (v.backing.Transient? ==> v.id == w.id) }

  lemma SlotsProtoInverse(slots: seq<MaybeStack>, i: nat, x: MaybeStack)
    requires i < |slots|
    requires forall j :: 0 <= j < |slots| && slots[j].Some? ==> slots[j].value.itemName != ""
    ensures SlotsFromProto(SlotsToProto(slots[i := x])) ==
            slots[i := if x.Some? && x.value.itemName == "" then None else x]
  {
  }

  lemma ParsedSlotsNamed(st: Stores, key: InventoryKey)
    requires StoredSlots(st, key).Ok?
    ensures var slots := StoredSlots(st, key).value.1;
      forall j :: 0 <= j < |slots| && slots[j].Some? ==> slots[j].value.itemName != ""
  {
  }

  /** A written slot, as far as the database can hold it: nameless stacks vanish from stored inventories. */
  function Kept(v: View, c: Content): MaybeStack {
    if v.backing.Stored? && c.Some? && c.value.borrowedStack.itemName == "" then None else StackOf(c)
  }

  /** Writing through one view shows through every view of the same slot, and nowhere else; views keep fitting. */
  lemma ReadAfterWrite(st: Stores, v: View, slot: nat, c: Content, w: View, other: nat)
    requires ViewFits(st, v) && Present(st, v, slot) && ViewFits(st, w)
    ensures var st' := WriteCell(st, v, slot, c);
      && ViewFits(st', w)
      && Access(st', w, other) == Access(st, w, other)
      && (Present(st, w, other) ==>
            StackOf(ReadCell(st', w, other)) ==
              if SameBacking(v, w) && slot == other then Kept(v, c) else StackOf(ReadCell(st, w, other)))
  {
    if v.backing.Stored? {
      var (d, slots) := StoredSlots(st, v.backing.key).value;
      ParsedSlotsNamed(st, v.backing.key);
      SlotsProtoInverse(slots, slot, StackOf(c));
    }
  }

  lemma StoredTotal(st: Stores, key: InventoryKey, p: InventoryProto, item: string)
    requires key in st.stored
    ensures TotalItems(st.(stored := st.stored[key := p]), item)
         == TotalItems(st, item) - Total(SlotsFromProto(st.stored[key].contents), item)
            + Total(SlotsFromProto(p.contents), item)
  {
    hide Total, SlotsFromProto, StacksOf;
    var st', total := st.(stored := st.stored[key := p]), Total(SlotsFromProto(p.contents), item);
    SumMapUpdate(StoredCounts(st, item), key, total);
    assert StoredCounts(st', item) == StoredCounts(st, item)[key := total];
    assert BlockCounts(st', item) == BlockCounts(st, item) && TransientCounts(st', item) == TransientCounts(st, item);
  }

  lemma BlockTotal(st: Stores, inv: BlockInventory, slots: seq<MaybeStack>, item: string)
    requires inv in st.inBlock
    ensures TotalItems(st.(inBlock := st.inBlock[inv := slots]), item)
         == TotalItems(st, item) - Total(st.inBlock[inv], item) + Total(slots, item)
  {
    hide Total, SlotsFromProto, StacksOf;
    var st' := st.(inBlock := st.inBlock[inv := slots]);
    SumMapUpdate(BlockCounts(st, item), inv, Total(slots, item));
    assert BlockCounts(st', item) == BlockCounts(st, item)[inv := Total(slots, item)];
    assert StoredCounts(st', item) == StoredCounts(st, item) && TransientCounts(st', item) == TransientCounts(st, item);
  }

  lemma TransientTotal(st: Stores, id: ViewId, cells: seq<Content>, item: string)
    requires id in st.transient
    ensures TotalItems(st.(transient := st.transient[id := cells]), item)
         == TotalItems(st, item) - Total(StacksOf(st.transient[id]), item) + Total(StacksOf(cells), item)
  {
    hide Total, SlotsFromProto, StacksOf;
    var st', total := st.(transient := st.transient[id := cells]), Total(StacksOf(cells), item);
    SumMapUpdate(TransientCounts(st, item), id, total);
    assert TransientCounts(st', item) == TransientCounts(st, item)[id := total];
    assert StoredCounts(st', item) == StoredCounts(st, item) && BlockCounts(st', item) == BlockCounts(st, item);
  }

  /** Writing one slot changes the number of items there are by what it held and what it holds now. */
  lemma WriteTotal(st: Stores, v: View, slot: nat, c: Content, item: string)
    requires ViewFits(st, v) && Present(st, v, slot) && item != ""
    ensures TotalItems(WriteCell(st, v, slot, c), item)
         == TotalItems(st, item) - Count(StackOf(ReadCell(st, v, slot)), item) + Count(StackOf(c), item)
  {
    match v.backing
    case Transient =>
      var cells := st.transient[v.id];
      assert StacksOf(cells[slot := c]) == StacksOf(cells)[slot := StackOf(c)];
      TotalUpdate(StacksOf(cells), slot, StackOf(c), item);
      TransientTotal(st, v.id, cells[slot := c], item);
    case Stored(key) =>
      var (d, slots) := StoredSlots(st, key).value;
      ParsedSlotsNamed(st, key);
      SlotsProtoInverse(slots, slot, StackOf(c));
      TotalUpdate(slots, slot, Kept(v, c), item);
      StoredTotal(st, key, ToProto(d, slots[slot := StackOf(c)]), item);
    case StoredInBlock(inv) =>
      TotalUpdate(st.inBlock[inv], slot, StackOf(c), item);
      BlockTotal(st, inv, st.inBlock[inv][slot := StackOf(c)], item);
  }

  /** Taking moves items out of the stores into the hand, and loses none. */
  lemma TakeConserves(st: Stores, v: View, slot: nat, count: Option<u32>, item: string)
    requires ViewFits(st, v) && item != ""
    ensures var (st', r) := TakeFromView(st, v, slot, count);
      TotalItems(st', item) + (if r.Ok? then Count(StackOf(r.value), item) else 0) == TotalItems(st, item)
  {
    if Present(st, v, slot) {
      var cell := ReadCell(st, v, slot);
      var from := if cell.Some? then cell.value.borrowsFrom else NotBorrowed;
      WriteTotal(st, v, slot, Lend(Take(StackOf(cell), count).0, from), item);
      TakeExact(StackOf(cell), count);
    }
  }

  /** Putting moves items from the hand into the stores; an error loses the whole stack. */
  lemma PutConserves(st: Stores, v: View, slot: nat, stack: BorrowedStack, item: string)
    requires ViewFits(st, v) && item != ""
    ensures var (st', r) := PutIntoView(st, v, slot, stack);
      TotalItems(st', item) + (if r.Ok? then Count(StackOf(r.value), item) else Count(Some(stack.borrowedStack), item))
        == TotalItems(st, item) + Count(Some(stack.borrowedStack), item)
  {
    if Present(st, v, slot) {
      var cell := ReadCell(st, v, slot);
      var from := if cell.Some? then cell.value.borrowsFrom.Or(stack.borrowsFrom) else stack.borrowsFrom;
      WriteTotal(st, v, slot, Lend(Merge(StackOf(cell), Some(stack.borrowedStack)).0, from), item);
      MergeExact(StackOf(cell), Some(stack.borrowedStack));
    }
  }

  /** Where a stack in a slot belongs: a stored or in-block inventory is its own stacks' home; a transient view
      remembers for each stack where it was borrowed. */
  function HomeOf(st: Stores, v: View, slot: nat): BorrowLocation
    requires ViewFits(st, v) && Present(st, v, slot)
  {
    match v.backing
    case Stored(key) => Global(key, slot)
    case StoredInBlock(inv) => Block(inv, slot)
    case Transient =>
      var cell := st.transient[v.id][slot];
      if cell.Some? then cell.value.borrowsFrom else NotBorrowed
  }

  /** Whatever is taken is borrowed from where it belongs, and what stays in a transient view belongs where it did. No
      other slot of a transient view changes. */
  lemma TakeBorrows(st: Stores, v: View, slot: nat, count: Option<u32>)
    requires ViewFits(st, v) && Present(st, v, slot)
    ensures var (st', r) := TakeFromView(st, v, slot, count);
      && r.Ok? && (r.value.Some? ==> r.value.value.borrowsFrom == HomeOf(st, v, slot))
      && (!v.backing.Transient? ==> st'.transient == st.transient)
      && (v.backing.Transient? ==>
            && st'.stored == st.stored && st'.inBlock == st.inBlock
            && st'.transient.Keys == st.transient.Keys && |st'.transient[v.id]| == |st.transient[v.id]|
            && (forall id :: id in st.transient && id != v.id ==> st'.transient[id] == st.transient[id])
            && (forall k :: 0 <= k < |st.transient[v.id]| && k != slot ==>
                  st'.transient[v.id][k] == st.transient[v.id][k])
            && (st'.transient[v.id][slot].Some? ==>
                  st'.transient[v.id][slot].value.borrowsFrom == HomeOf(st, v, slot)))
  {
  }

  /** A stack put into a transient view keeps where it belongs, unless it comes onto one that was borrowed, and so does
      what is left over of it. */
  lemma PutBorrows(st: Stores, v: View, slot: nat, stack: BorrowedStack)
    requires ViewFits(st, v) && Present(st, v, slot)
    ensures var (st', r) := PutIntoView(st, v, slot, stack);
      && r.Ok? && (r.value.Some? ==> r.value.value.borrowsFrom == stack.borrowsFrom)
      && (!v.backing.Transient? ==> st'.transient == st.transient)
      && (v.backing.Transient? ==>
            && st'.stored == st.stored && st'.inBlock == st.inBlock
            && st'.transient.Keys == st.transient.Keys && |st'.transient[v.id]| == |st.transient[v.id]|
            && (forall id :: id in st.transient && id != v.id ==> st'.transient[id] == st.transient[id])
            && (forall k :: 0 <= k < |st.transient[v.id]| && k != slot ==>
                  st'.transient[v.id][k] == st.transient[v.id][k])
            && st'.transient[v.id][slot].Some?
            && st'.transient[v.id][slot].value.borrowsFrom ==
                 (if HomeOf(st, v, slot).NotBorrowed? then stack.borrowsFrom else HomeOf(st, v, slot)))
  {
  }
}
