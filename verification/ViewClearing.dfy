/** Emptying a transient view when it closes (`clear_if_transient`, cuberef_server/src/game_state/inventory.rs). */
module ViewClearing {
  import opened Wrappers
  import opened Items
  import opened Inventories
  import opened InventoryViews

  /** Merging a stack into one slot, then inserting what is left anywhere in the same inventory. */
  function MergeThenInsert(slots: seq<MaybeStack>, slot: nat, stack: ItemStack): (seq<MaybeStack>, MaybeStack)
    requires slot < |slots|
  {
    var (merged, rest) := Merge(slots[slot], Some(stack));
    var slots' := slots[slot := merged];
    if rest.None? then (slots', None) else Insert(slots', rest.value)
  }

  function StoreSlots(st: Stores, key: InventoryKey, slots: seq<MaybeStack>): Stores
    requires StoredSlots(st, key).Ok?
  {
    st.(stored := st.stored[key := ToProto(StoredSlots(st, key).value.0, slots)])
  }

  /** Giving a borrowed stack back to where it came from: the stores afterwards and the stack left over. */
  function ReturnHome(st: Stores, stack: BorrowedStack): (Stores, Result<MaybeStack, ViewError>) {
    match stack.borrowsFrom
    case NotBorrowed => (st, Ok(Some(stack.borrowedStack)))
    case Global(key, slot) =>
      var parsed := StoredSlots(st, key);
      if parsed.Err? then (st, Err(parsed.error))
      else if slot >= |parsed.value.1| then (StoreSlots(st, key, parsed.value.1), Err(SlotOutOfRange))
      else
        var (slots, rest) := MergeThenInsert(parsed.value.1, slot, stack.borrowedStack);
        (StoreSlots(st, key, slots), Ok(rest))
    case Block(inv, slot) =>
      if inv !in st.inBlock then (st, Ok(Some(stack.borrowedStack)))
      else if slot >= |st.inBlock[inv]| then (st, Err(SlotOutOfRange))
      else
        var (slots, rest) := MergeThenInsert(st.inBlock[inv], slot, stack.borrowedStack);
        (st.(inBlock := st.inBlock[inv := slots]), Ok(rest))
  }

  /** Inserting a stack into the owner's inventory. */
  function GiveOwner(st: Stores, owner: InventoryKey, stack: ItemStack): (Stores, Result<MaybeStack, ViewError>) {
    var parsed := StoredSlots(st, owner);
    if parsed.Err? then (st, Err(parsed.error))
    else
      var (slots, rest) := Insert(parsed.value.1, stack);
      (StoreSlots(st, owner, slots), Ok(rest))
  }

  datatype Cleared = Cleared(stores: Stores, error: Option<ViewError>, lost: seq<ItemStack>)

  function Dropped(s: MaybeStack): seq<ItemStack> { if s.Some? then [s.value] else [] }

  /** Returning one stack: home first, then the owner; what neither takes is lost. */
  function ReturnStack(st: Stores, stack: BorrowedStack, owner: Option<InventoryKey>): Cleared {
    var (st1, home) := ReturnHome(st, stack);
    if home.Err? then Cleared(st1, Some(home.error), [stack.borrowedStack])
    else if home.value.None? || owner.None? then Cleared(st1, None, Dropped(home.value))
    else
      var (st2, rest) := GiveOwner(st1, owner.value, home.value.value);
      if rest.Err? then Cleared(st2, Some(rest.error), Dropped(home.value))
      else Cleared(st2, None, Dropped(rest.value))
  }

  /** Emptying the slots of a transient view from `i` on; the first error stops it. */
  function ClearFrom(st: Stores, id: ViewId, i: nat, owner: Option<InventoryKey>, lost: seq<ItemStack>): Cleared
    requires id in st.transient
    decreases |st.transient[id]| - i
  {
    var cells := st.transient[id];
    if i >= |cells| then Cleared(st, None, lost)
    else if cells[i].None? then ClearFrom(st, id, i + 1, owner, lost)
    else
      var emptied := st.(transient := st.transient[id := cells[i := None]]);
      var step := ReturnStack(emptied, cells[i].value, owner);
      if step.error.Some? then step.(lost := lost + step.lost)
      else ClearFrom(step.stores, id, i + 1, owner, lost + step.lost)
  }

  /** `clear_if_transient`: views that are not transient keep what they show. */
  function ClearView(st: Stores, v: View, owner: Option<InventoryKey>): Cleared
    requires ViewFits(st, v)
  {
    if v.backing.Transient? then ClearFrom(st, v.id, 0, owner, []) else Cleared(st, None, [])
  }

  // ----- what clearing keeps ---------------------------------------------------------------------------------------

  function LostTotal(lost: seq<ItemStack>, item: string): nat {
    if lost == [] then 0 else Count(Some(lost[0]), item) + LostTotal(lost[1..], item)
  }

  lemma {:induction false} LostTotalConcat(a: seq<ItemStack>, b: seq<ItemStack>, item: string)
    ensures LostTotal(a + b, item) == LostTotal(a, item) + LostTotal(b, item)
  {
    if a == [] {
      assert a + b == b;
    } else {
      LostTotalConcat(a[1..], b, item);
      assert (a + b)[1..] == a[1..] + b;
    }
  }

  lemma MergeThenInsertExact(slots: seq<MaybeStack>, slot: nat, stack: ItemStack, item: string)
    requires slot < |slots|
    ensures var (s, rest) := MergeThenInsert(slots, slot, stack);
      && |s| == |slots|
      && Total(s, item) + Count(rest, item) == Total(slots, item) + Count(Some(stack), item)
      && (forall j :: 0 <= j < |s| && s[j].None? ==> slots[j].None?)
      && (rest.Some? ==> !HasEmptySlot(s) && rest.value == stack.(quantity := rest.value.quantity))
  {
    var (merged, rest) := Merge(slots[slot], Some(stack));
    var slots' := slots[slot := merged];
    TotalUpdate(slots, slot, merged, item);
    MergeExact(slots[slot], Some(stack));
    if rest.Some? { InsertKeepsOccupied(slots', rest.value, item); }
  }

  /** Insertion never empties a slot. */
  lemma InsertKeepsOccupied(slots: seq<MaybeStack>, stack: ItemStack, item: string)
    ensures var (s, rest) := Insert(slots, stack);
      && |s| == |slots|
      && (forall j :: 0 <= j < |s| && s[j].None? ==> slots[j].None?)
      && (rest.Some? ==> !HasEmptySlot(s) && rest.value == stack.(quantity := rest.value.quantity))
      && Total(s, item) + Count(rest, item) == Total(slots, item) + Count(Some(stack), item)
  {
    InsertExact(slots, stack, item);
    MergeFromShape(slots, 0, stack);
    var (merged, rest) := MergeFrom(slots, 0, stack);
    if rest.Some? {
      PlaceFromExact(merged, 0, rest.value, item);
      assert forall j :: 0 <= j < |slots| && Insert(slots, stack).0[j].None? ==> merged[j].None?;
    }
  }

  /** The database form of slots counts the named items in them. */
  lemma {:induction false} ProtoTotal(slots: seq<MaybeStack>, item: string)
    requires item != ""
    ensures Total(SlotsFromProto(SlotsToProto(slots)), item) == Total(slots, item)
  {
    if slots != [] {
      ProtoTotal(slots[1..], item);
      assert SlotsFromProto(SlotsToProto(slots))[1..] == SlotsFromProto(SlotsToProto(slots[1..]));
    }
  }

  lemma StoreSlotsTotal(st: Stores, key: InventoryKey, slots: seq<MaybeStack>, item: string)
    requires StoredSlots(st, key).Ok? && item != ""
    ensures TotalItems(StoreSlots(st, key, slots), item)
         == TotalItems(st, item) - Total(StoredSlots(st, key).value.1, item) + Total(slots, item)
  {
    var p := ToProto(StoredSlots(st, key).value.0, slots);
    StoredTotal(st, key, p, item);
    ProtoTotal(slots, item);
  }

  lemma ReturnHomeConserves(st: Stores, stack: BorrowedStack, item: string)
    requires item != ""
    ensures var (st', r) := ReturnHome(st, stack);
      && TotalItems(st', item) + (if r.Ok? then Count(r.value, item) else Count(Some(stack.borrowedStack), item))
           == TotalItems(st, item) + Count(Some(stack.borrowedStack), item)
  {
    match stack.borrowsFrom
    case NotBorrowed =>
    case Global(key, slot) =>
      var parsed := StoredSlots(st, key);
      if parsed.Ok? {
        var slots := parsed.value.1;
        if slot < |slots| {
          MergeThenInsertExact(slots, slot, stack.borrowedStack, item);
          StoreSlotsTotal(st, key, MergeThenInsert(slots, slot, stack.borrowedStack).0, item);
        } else {
          StoreSlotsTotal(st, key, slots, item);
        }
      }
    case Block(inv, slot) =>
      if inv in st.inBlock && slot < |st.inBlock[inv]| {
        MergeThenInsertExact(st.inBlock[inv], slot, stack.borrowedStack, item);
        BlockTotal(st, inv, MergeThenInsert(st.inBlock[inv], slot, stack.borrowedStack).0, item);
      }
  }

  lemma GiveOwnerConserves(st: Stores, owner: InventoryKey, stack: ItemStack, item: string)
    requires item != ""
    ensures var (st', r) := GiveOwner(st, owner, stack);
      TotalItems(st', item) + (if r.Ok? then Count(r.value, item) else Count(Some(stack), item))
        == TotalItems(st, item) + Count(Some(stack), item)
  {
    var parsed := StoredSlots(st, owner);
    if parsed.Ok? {
      InsertKeepsOccupied(parsed.value.1, stack, item);
      StoreSlotsTotal(st, owner, Insert(parsed.value.1, stack).0, item);
    }
  }

  lemma DroppedTotal(s: MaybeStack, item: string)
    ensures LostTotal(Dropped(s), item) == Count(s, item)
  {
    if s.Some? { assert Dropped(s)[1..] == []; }
  }

  lemma ReturnStackConserves(st: Stores, stack: BorrowedStack, owner: Option<InventoryKey>, item: string)
    requires item != ""
    ensures var c := ReturnStack(st, stack, owner);
      TotalItems(c.stores, item) + LostTotal(c.lost, item)
        == TotalItems(st, item) + Count(Some(stack.borrowedStack), item)
  {
    var (st1, home) := ReturnHome(st, stack);
    var before, inHand := TotalItems(st, item), Count(Some(stack.borrowedStack), item);
    assert TotalItems(st1, item) + (if home.Ok? then Count(home.value, item) else inHand) == before + inHand by {
      ReturnHomeConserves(st, stack, item);
    }
    if home.Err? {
      DroppedTotal(Some(stack.borrowedStack), item);
    } else if home.value.None? || owner.None? {
      DroppedTotal(home.value, item);
    } else {
      GiveOwnerConserves(st1, owner.value, home.value.value, item);
      var (st2, rest) := GiveOwner(st1, owner.value, home.value.value);
      if rest.Ok? { DroppedTotal(rest.value, item); } else { DroppedTotal(home.value, item); }
    }
  }

  /** Clearing accounts for every item: what is no longer in the stores is in the list of lost stacks. */
  lemma {:induction false} ClearFromConserves(
    st: Stores, id: ViewId, i: nat, owner: Option<InventoryKey>, lost: seq<ItemStack>, item: string)
    requires id in st.transient && item != ""
    ensures var c := ClearFrom(st, id, i, owner, lost);
      TotalItems(c.stores, item) + LostTotal(c.lost, item) == TotalItems(st, item) + LostTotal(lost, item)
    decreases |st.transient[id]| - i
  {
    var cells := st.transient[id];
    if i < |cells| {
      if cells[i].None? {
        ClearFromConserves(st, id, i + 1, owner, lost, item);
      } else {
        var emptied := st.(transient := st.transient[id := cells[i := None]]);
        assert StacksOf(cells[i := None]) == StacksOf(cells)[i := None];
        TransientTotal(st, id, cells[i := None], item);
        TotalUpdate(StacksOf(cells), i, None, item);
        ReturnStackConserves(emptied, cells[i].value, owner, item);
        ReturnStackFrame(emptied, cells[i].value, owner);
        var step := ReturnStack(emptied, cells[i].value, owner);
        LostTotalConcat(lost, step.lost, item);
        if step.error.None? { ClearFromConserves(step.stores, id, i + 1, owner, lost + step.lost, item); }
      }
    }
  }

  /** Slots of a stored inventory that were occupied stay occupied. */
  predicate NothingEmptied(st: Stores, st': Stores) {
    forall key :: key in st.stored && StoredSlots(st, key).Ok? ==>
      && StoredSlots(st', key).Ok?
      && var s, s' := StoredSlots(st, key).value.1, StoredSlots(st', key).value.1;
         |s| == |s'| && forall j :: 0 <= j < |s| && s'[j].None? ==> s[j].None?
  }

  predicate AllNamed(slots: seq<MaybeStack>) {
    forall j :: 0 <= j < |slots| && slots[j].Some? ==> slots[j].value.itemName != ""
  }

  lemma StoreSlotsParsed(st: Stores, key: InventoryKey, slots: seq<MaybeStack>)
    requires StoredSlots(st, key).Ok? && |slots| == |StoredSlots(st, key).value.1| && AllNamed(slots)
    ensures StoredSlots(StoreSlots(st, key, slots), key) == Ok((StoredSlots(st, key).value.0, slots))
    ensures forall k :: k != key ==> StoredSlots(StoreSlots(st, key, slots), k) == StoredSlots(st, k)
  {
    assert SlotsFromProto(SlotsToProto(slots)) == slots;
  }

  lemma {:induction false} MergeFromNamed(slots: seq<MaybeStack>, i: nat, stack: ItemStack)
    requires i <= |slots| && AllNamed(slots) && stack.itemName != ""
    ensures var (s, rest) := MergeFrom(slots, i, stack); AllNamed(s) && AllNamed([rest])
    decreases |slots| - i
  {
    if i < |slots| {
      if slots[i].None? { MergeFromNamed(slots, i + 1, stack); } else {
        var (merged, rest) := Merge(slots[i], Some(stack));
        if rest.Some? { MergeFromNamed(slots[i := merged], i + 1, rest.value); }
      }
    }
  }

  lemma InsertNamed(slots: seq<MaybeStack>, stack: ItemStack)
    requires AllNamed(slots) && stack.itemName != ""
    ensures AllNamed(Insert(slots, stack).0)
  {
    MergeFromNamed(slots, 0, stack);
    var (merged, rest) := MergeFrom(slots, 0, stack);
    assert [rest][0] == rest;
    if rest.Some? { PlaceFromExact(merged, 0, rest.value, ""); }
  }

  /** Returning a named stack empties no slot, and loses it only if there is no owner or the owner is full. */
  lemma ReturnStackLoses(st: Stores, stack: BorrowedStack, owner: Option<InventoryKey>)
    requires stack.borrowedStack.itemName != ""
    ensures var c := ReturnStack(st, stack, owner);
      && NothingEmptied(st, c.stores)
      && (c.error.None? && c.lost != [] && owner.Some? ==>
            StoredSlots(c.stores, owner.value).Ok? && !HasEmptySlot(StoredSlots(c.stores, owner.value).value.1))
  {
    var (st1, home) := ReturnHome(st, stack);
    ReturnHomeKeeps(st, stack);
    if home.Ok? && home.value.Some? && owner.Some? {
      var parsed := StoredSlots(st1, owner.value);
      if parsed.Ok? {
        ParsedSlotsNamed(st1, owner.value);
        InsertKeepsOccupied(parsed.value.1, home.value.value, "");
        InsertNamed(parsed.value.1, home.value.value);
        StoreSlotsParsed(st1, owner.value, Insert(parsed.value.1, home.value.value).0);
      }
    }
  }

  lemma ReturnHomeKeeps(st: Stores, stack: BorrowedStack)
    requires stack.borrowedStack.itemName != ""
    ensures var (st', r) := ReturnHome(st, stack);
      && NothingEmptied(st, st')
      && (r.Ok? && r.value.Some? ==> r.value.value.itemName != "")
  {
    if stack.borrowsFrom.Global? {
      var key, slot := stack.borrowsFrom.key, stack.borrowsFrom.slot;
      if StoredSlots(st, key).Ok? {
        var slots := StoredSlots(st, key).value.1;
        ParsedSlotsNamed(st, key);
        if slot < |slots| {
          MergeThenInsertExact(slots, slot, stack.borrowedStack, "");
          var (merged, rest) := Merge(slots[slot], Some(stack.borrowedStack));
          if rest.Some? { InsertNamed(slots[slot := merged], rest.value); }
          StoreSlotsParsed(st, key, MergeThenInsert(slots, slot, stack.borrowedStack).0);
        } else {
          StoreSlotsParsed(st, key, slots);
        }
      }
    } else if stack.borrowsFrom.Block? {
      var inv, slot := stack.borrowsFrom.inv, stack.borrowsFrom.slot;
      if inv in st.inBlock && slot < |st.inBlock[inv]| {
        MergeThenInsertExact(st.inBlock[inv], slot, stack.borrowedStack, "");
      }
    }
  }

  predicate CellsNamed(cells: seq<Content>) {
    forall j :: 0 <= j < |cells| && cells[j].Some? ==> cells[j].value.borrowedStack.itemName != ""
  }

  predicate OwnerFull(st: Stores, owner: Option<InventoryKey>) {
    owner.Some? ==> StoredSlots(st, owner.value).Ok? && !HasEmptySlot(StoredSlots(st, owner.value).value.1)
  }

  lemma ReturnStackFrame(st: Stores, stack: BorrowedStack, owner: Option<InventoryKey>)
    ensures ReturnStack(st, stack, owner).stores.transient == st.transient
  {
  }

  lemma {:induction false} ClearFromEmpties(
    st: Stores, id: ViewId, i: nat, owner: Option<InventoryKey>, lost: seq<ItemStack>)
    requires id in st.transient
    requires forall j :: 0 <= j < i && j < |st.transient[id]| ==> st.transient[id][j].None?
    ensures var c := ClearFrom(st, id, i, owner, lost);
      c.error.None? ==>
        c.stores.transient == st.transient[id := seq(|st.transient[id]|, _ => None)]
    decreases |st.transient[id]| - i
  {
    var cells := st.transient[id];
    if i < |cells| {
      if cells[i].None? {
        ClearFromEmpties(st, id, i + 1, owner, lost);
      } else {
        var emptied := st.(transient := st.transient[id := cells[i := None]]);
        var step := ReturnStack(emptied, cells[i].value, owner);
        ReturnStackFrame(emptied, cells[i].value, owner);
        if step.error.None? { ClearFromEmpties(step.stores, id, i + 1, owner, lost + step.lost); }
      }
    } else {
      assert cells == seq(|cells|, _ => None);
      assert st.transient == st.transient[id := seq(|cells|, _ => None)];
    }
  }

  lemma {:induction false} ClearFromLoses(
    st: Stores, id: ViewId, i: nat, owner: Option<InventoryKey>, lost: seq<ItemStack>)
    requires id in st.transient && CellsNamed(st.transient[id])
    requires lost != [] ==> OwnerFull(st, owner)
    ensures var c := ClearFrom(st, id, i, owner, lost);
      c.error.None? && c.lost != [] ==> OwnerFull(c.stores, owner)
    decreases |st.transient[id]| - i
  {
    var cells := st.transient[id];
    if i < |cells| {
      if cells[i].None? {
        ClearFromLoses(st, id, i + 1, owner, lost);
      } else {
        var emptied := st.(transient := st.transient[id := cells[i := None]]);
        var step := ReturnStack(emptied, cells[i].value, owner);
        ReturnStackLoses(emptied, cells[i].value, owner);
        ReturnStackFrame(emptied, cells[i].value, owner);
        if step.error.None? {
          if lost != [] {
            assert emptied.stored == st.stored;
            assert OwnerFull(emptied, owner);
            OwnerStaysFull(emptied, step.stores, owner);
          }
          ClearFromLoses(step.stores, id, i + 1, owner, lost + step.lost);
        }
      }
    }
  }

  lemma OwnerStaysFull(st: Stores, st': Stores, owner: Option<InventoryKey>)
    requires NothingEmptied(st, st') && OwnerFull(st, owner)
    ensures OwnerFull(st', owner)
  {
    if owner.Some? { assert owner.value in st.stored; }
  }

  /** Closing a view. Without an error every slot of a transient view ends up empty, no other transient view changes,
      every item is still in the stores or listed as lost, and a stack is lost only when there is no owner or the
      owner's inventory ends without an empty slot. */
  lemma ClearingExact(st: Stores, v: View, owner: Option<InventoryKey>, item: string)
    requires ViewFits(st, v) && item != ""
    requires v.backing.Transient? ==> CellsNamed(st.transient[v.id])
    ensures var c := ClearView(st, v, owner);
      && TotalItems(c.stores, item) + LostTotal(c.lost, item) == TotalItems(st, item)
      && (!v.backing.Transient? ==> c == Cleared(st, None, []))
      && (c.error.None? ==>
            && (c.lost != [] ==> OwnerFull(c.stores, owner))
            && (v.backing.Transient? ==>
                  c.stores.transient == st.transient[v.id := seq(Size(v.dimensions), _ => None)]))
  {
    if v.backing.Transient? {
      ClearFromConserves(st, v.id, 0, owner, [], item);
      ClearFromLoses(st, v.id, 0, owner, []);
      ClearFromEmpties(st, v.id, 0, owner, []);
    }
  }
}
