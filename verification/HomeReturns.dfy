/** Borrowed stacks go home before they go to the owner (`clear_if_transient`,
    cuberef_server/src/game_state/inventory.rs). */
module HomeReturns {
  import opened Wrappers
  import opened Items
  import opened Inventories
  import opened InventoryViews
  import opened ViewClearing

  /** The slots of the inventory that a stack was borrowed from; none if it is not there or cannot be read. */
  function SlotsAt(st: Stores, from: BorrowLocation): seq<MaybeStack> {
    match from
    case NotBorrowed => []
    case Global(key, _) => if StoredSlots(st, key).Ok? then StoredSlots(st, key).value.1 else []
    case Block(inv, _) => if inv in st.inBlock then st.inBlock[inv] else []
  }

  predicate IsPlace(st: Stores, from: BorrowLocation) { !from.NotBorrowed? && from.slot < |SlotsAt(st, from)| }

  /** What is at a place that stacks are borrowed from. */
  function HeldAt(st: Stores, from: BorrowLocation): MaybeStack
    requires IsPlace(st, from)
  {
    SlotsAt(st, from)[from.slot]
  }

  predicate SameInventory(a: BorrowLocation, b: BorrowLocation) {
    || (a.Global? && b.Global? && a.key == b.key)
    || (a.Block? && b.Block? && a.inv == b.inv)
  }

  /** No more of a stack can be added to any of the slots. */
  predicate NoRoom(before: seq<MaybeStack>, after: seq<MaybeStack>, stack: ItemStack) {
    && |before| == |after| && !HasEmptySlot(after)
    && forall j :: 0 <= j < |before| && MergeableSlot(before[j], stack) ==> IsFull(after[j])
  }

  lemma MergeThenInsertFills(slots: seq<MaybeStack>, slot: nat, stack: ItemStack)
    requires slot < |slots|
    ensures var (s, rest) := MergeThenInsert(slots, slot, stack);
      && |s| == |slots|
      && (slots[slot].None? ==> rest.None? && s == slots[slot := Some(stack)])
      && (MergeableSlot(slots[slot], stack) && (rest.Some? || exists j :: 0 <= j < |s| && j != slot && s[j] != slots[j])
          ==> IsFull(s[slot]))
      && (rest.Some? ==> NoRoom(slots, s, stack) && rest.value == stack.(quantity := rest.value.quantity))
  {
    hide Insert, FreeSpace, Total;
    var (merged, rest) := Merge(slots[slot], Some(stack));
    MergeExact(slots[slot], Some(stack));
    MergeThenInsertExact(slots, slot, stack, "");
    if rest.Some? { InsertFillsFirst(slots[slot := merged], rest.value); }
  }

  /** A stack goes back into the slot that it was borrowed from, if that is free, and nowhere else. Otherwise that slot
      is filled before any other of its inventory, and something is left over only when that has no room at all. No
      other inventory changes. */
  lemma HomeFirst(st: Stores, stack: BorrowedStack, other: BorrowLocation)
    requires IsPlace(st, stack.borrowsFrom) && stack.borrowedStack.itemName != ""
    ensures var (st', r) := ReturnHome(st, stack);
      var from, mine := stack.borrowsFrom, stack.borrowedStack;
      var home, home' := SlotsAt(st, from), SlotsAt(st', from);
      && r.Ok? && |home'| == |home|
      && (home[from.slot].None? ==> r.value.None? && home' == home[from.slot := Some(mine)])
      && (MergeableSlot(home[from.slot], mine) && home' != home[from.slot := home'[from.slot]] ==>
            IsFull(home'[from.slot]))
      && (r.value.Some? ==> NoRoom(home, home', mine) && r.value.value == mine.(quantity := r.value.value.quantity))
      && (!SameInventory(from, other) ==> SlotsAt(st', other) == SlotsAt(st, other))
      && st'.transient == st.transient
  {
    hide Insert, Merge, MergeableSlot, IsFull, NoRoom, MergeThenInsert;
    var from, mine := stack.borrowsFrom, stack.borrowedStack;
    var home := SlotsAt(st, from);
    MergeThenInsertFills(home, from.slot, mine);
    MergeThenInsertExact(home, from.slot, mine, "");
    var s := MergeThenInsert(home, from.slot, mine).0;
    if s != home[from.slot := s[from.slot]] {
      assert exists j :: 0 <= j < |s| && j != from.slot && s[j] != home[j];
    }
    if from.Global? {
      ParsedSlotsNamed(st, from.key);
      MergeThenInsertNamed(home, from.slot, mine);
      StoreSlotsParsed(st, from.key, s);
    }
  }

  lemma MergeThenInsertNamed(slots: seq<MaybeStack>, slot: nat, stack: ItemStack)
    requires slot < |slots| && AllNamed(slots) && stack.itemName != ""
    ensures AllNamed(MergeThenInsert(slots, slot, stack).0)
  {
    hide Insert;
    var (merged, rest) := Merge(slots[slot], Some(stack));
    if rest.Some? { InsertNamed(slots[slot := merged], rest.value); }
  }

  /** What the owner gets, or is lost, is only what could not go home: the stack was not borrowed, its place is not
      there any more, or there is no room for it there. */
  lemma OwnerGetsTheRest(st: Stores, stack: BorrowedStack, owner: Option<InventoryKey>, other: BorrowLocation)
    requires stack.borrowedStack.itemName != ""
    ensures var c, home, from := ReturnStack(st, stack, owner), ReturnHome(st, stack).0, stack.borrowsFrom;
      c.lost != [] || SlotsAt(c.stores, other) != SlotsAt(home, other) ==>
        || !IsPlace(st, from)
        || NoRoom(SlotsAt(st, from), SlotsAt(home, from), stack.borrowedStack)
  {
    hide ReturnHome, NoRoom, Insert;
    if IsPlace(st, stack.borrowsFrom) { HomeFirst(st, stack, other); }
  }

  // ----- a whole view ----------------------------------------------------------------------------------------------

  /** Every stack of the cells from `i` on has a free place of its own to go home to. */
  predicate HomesFree(st: Stores, cells: seq<Content>, i: nat) {
    && (forall j :: i <= j < |cells| && cells[j].Some? ==>
          && IsPlace(st, cells[j].value.borrowsFrom) && HeldAt(st, cells[j].value.borrowsFrom).None?
          && cells[j].value.borrowedStack.itemName != "")
    && forall j, k :: i <= j < k < |cells| && cells[j].Some? && cells[k].Some? ==>
         cells[j].value.borrowsFrom != cells[k].value.borrowsFrom
  }

  /** A stack whose place is free is there afterwards, and every other place is as it was. */
  lemma FreeHomeTaken(st: Stores, stack: BorrowedStack, owner: Option<InventoryKey>, other: BorrowLocation)
    requires IsPlace(st, stack.borrowsFrom) && HeldAt(st, stack.borrowsFrom).None?
    requires stack.borrowedStack.itemName != ""
    ensures var c := ReturnStack(st, stack, owner);
      && c.error.None? && c.lost == [] && c.stores.transient == st.transient
      && (IsPlace(c.stores, other) <==> IsPlace(st, other))
      && (IsPlace(st, other) ==>
            HeldAt(c.stores, other) ==
              if other == stack.borrowsFrom then Some(stack.borrowedStack) else HeldAt(st, other))
  {
    hide ReturnHome, NoRoom, IsFull, MergeableSlot;
    HomeFirst(st, stack, other);
    var c := ReturnStack(st, stack, owner);
    if SameInventory(stack.borrowsFrom, other) {
      assert SlotsAt(c.stores, other) == SlotsAt(c.stores, stack.borrowsFrom);
      assert SlotsAt(st, other) == SlotsAt(st, stack.borrowsFrom);
    }
  }

  lemma {:induction false} ClearFromReturns(
    st: Stores, id: ViewId, i: nat, owner: Option<InventoryKey>, lost: seq<ItemStack>, place: BorrowLocation)
    requires id in st.transient && HomesFree(st, st.transient[id], i)
    ensures var c, cells := ClearFrom(st, id, i, owner, lost), st.transient[id];
      && c.error.None? && c.lost == lost
      && (IsPlace(c.stores, place) <==> IsPlace(st, place))
      && (forall j :: i <= j < |cells| && cells[j].Some? && cells[j].value.borrowsFrom == place ==>
            IsPlace(st, place) && HeldAt(c.stores, place) == Some(cells[j].value.borrowedStack))
      && (IsPlace(st, place)
          && (forall j :: i <= j < |cells| && cells[j].Some? ==> cells[j].value.borrowsFrom != place) ==>
            HeldAt(c.stores, place) == HeldAt(st, place))
    decreases |st.transient[id]| - i
  {
    hide ReturnStack, IsPlace, HeldAt;
    var cells := st.transient[id];
    if i < |cells| {
      if cells[i].None? {
        ClearFromReturns(st, id, i + 1, owner, lost, place);
      } else {
        var emptied, stack := st.(transient := st.transient[id := cells[i := None]]), cells[i].value;
        forall from: BorrowLocation
          ensures IsPlace(emptied, from) == IsPlace(st, from)
          ensures IsPlace(st, from) ==> HeldAt(emptied, from) == HeldAt(st, from)
        {
          TransientElsewhere(st, emptied, from);
        }
        var step := ReturnStack(emptied, stack, owner);
        assert lost + [] == lost;
        forall j | i < j < |cells| && cells[j].Some?
          ensures IsPlace(step.stores, cells[j].value.borrowsFrom)
          ensures HeldAt(step.stores, cells[j].value.borrowsFrom).None?
        {
          FreeHomeTaken(emptied, stack, owner, cells[j].value.borrowsFrom);
        }
        FreeHomeTaken(emptied, stack, owner, place);
        ClearFromReturns(step.stores, id, i + 1, owner, lost, place);
        var cells' := step.stores.transient[id];
        forall j | i <= j < |cells| && cells[j].Some? && cells[j].value.borrowsFrom == place
          ensures HeldAt(ClearFrom(st, id, i, owner, lost).stores, place) == Some(cells[j].value.borrowedStack)
        {
          if j > i {
            assert cells'[j] == cells[j];
          } else {
            assert forall k :: i < k < |cells| ==> cells'[k] == cells[k];
          }
        }
      }
    }
  }

  lemma TransientElsewhere(st: Stores, st': Stores, from: BorrowLocation)
    requires st'.stored == st.stored && st'.inBlock == st.inBlock
    ensures IsPlace(st', from) == IsPlace(st, from)
    ensures IsPlace(st, from) ==> HeldAt(st', from) == HeldAt(st, from)
  {
  }

  /** Closing a view whose stacks' places are free: each stack is back in its place, and no other slot of any inventory
      has changed, the owner's included. */
  lemma ViewGoesHome(st: Stores, v: View, owner: Option<InventoryKey>, place: BorrowLocation)
    requires ViewFits(st, v) && v.backing.Transient? && HomesFree(st, st.transient[v.id], 0)
    ensures var c, cells := ClearView(st, v, owner), st.transient[v.id];
      && c.error.None? && c.lost == []
      && (IsPlace(c.stores, place) <==> IsPlace(st, place))
      && (forall j :: 0 <= j < |cells| && cells[j].Some? && cells[j].value.borrowsFrom == place ==>
            IsPlace(st, place) && HeldAt(c.stores, place) == Some(cells[j].value.borrowedStack))
      && (IsPlace(st, place)
          && (forall j :: 0 <= j < |cells| && cells[j].Some? ==> cells[j].value.borrowsFrom != place) ==>
            HeldAt(c.stores, place) == HeldAt(st, place))
  {
    hide ClearFrom, HomesFree, IsPlace, HeldAt;
    ClearFromReturns(st, v.id, 0, owner, [], place);
  }
}
