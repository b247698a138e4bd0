/** The stores of items as mutable state, and the operations of views on them
    (cuberef_server/src/game_state/inventory.rs). */
module InventoryAccess {
  import opened Wrappers
  import opened Items
  import opened Inventories
  import opened InventoryViews
  import opened ViewClearing

  class InventoryStores {
    var stored: map<InventoryKey, InventoryProto>
    var inBlock: map<BlockInventory, seq<MaybeStack>>
    var transient: map<ViewId, seq<Content>>

    constructor (st: Stores)
      ensures State() == st
    {
      stored, inBlock, transient := st.stored, st.inBlock, st.transient;
    }

    function State(): Stores
      reads this
    {
      Stores(stored, inBlock, transient)
    }

    /** Reads an inventory from the database for mutation. */
    method LoadInventory(key: InventoryKey) returns (r: Result<Inventory, ViewError>)
      ensures r.Ok? <==> StoredSlots(State(), key).Ok?
      ensures r.Err? ==> r.error == StoredSlots(State(), key).error
      ensures r.Ok? ==> fresh(r.value) && fresh(r.value.contents)
      ensures r.Ok? ==> (r.value.dimensions, r.value.contents[..]) == StoredSlots(State(), key).value
    {
      if key !in stored {
        return Err(InventoryNotFound);
      }
      var parsed := FromProto(stored[key]);
      if parsed.Err? {
        return Err(BadInventory);
      }
      var inv := new Inventory.FromParsed(parsed.value.0, parsed.value.1);
      r := Ok(inv);
    }

    /** Writes a mutated inventory back. */
    method SaveInventory(key: InventoryKey, inv: Inventory)
      modifies this`stored
      ensures stored == old(stored)[key := ToProto(inv.dimensions, inv.contents[..])]
    {
      stored := stored[key := ToProto(inv.dimensions, inv.contents[..])];
    }

    /** Takes a stack, or part of one, out of a slot shown by a view. */
    method Take(view: View, slot: nat, count: Option<u32>) returns (r: Result<Content, ViewError>)
      requires ViewFits(State(), view)
      modifies this
      ensures (State(), r) == TakeFromView(old(State()), view, slot, count)
    {
      if slot >= view.dimensions.height * view.dimensions.width {
        return Err(SlotOutOfRange);
      }
      if view.backing.Transient? {
        var cells := transient[view.id];
        if cells[slot].None? {
          assert cells == cells[slot := None] && transient == transient[view.id := cells];
          return Ok(None);
        }
        var borrowsFrom := cells[slot].value.borrowsFrom;
        var inner := new Slot(Some(cells[slot].value.borrowedStack));
        var obtained := inner.TakeItems(count);
        transient := transient[view.id := cells[slot := Lend(inner.stack, borrowsFrom)]];
        r := Ok(Lend(obtained, borrowsFrom));
      } else if view.backing.Stored? {
        var key := view.backing.key;
        var loaded := LoadInventory(key);
        if loaded.Err? {
          return Err(loaded.error);
        }
        var obtained := loaded.value.TakeFrom(slot, count);
        SaveInventory(key, loaded.value);
        r := Ok(Lend(obtained, Global(key, slot)));
      } else {
        var inv := view.backing.inv;
        if inv !in inBlock {
          return Ok(None);
        }
        var contents := new Inventory.FromParsed(view.dimensions, inBlock[inv]);
        var obtained := contents.TakeFrom(slot, count);
        inBlock := inBlock[inv := contents.contents[..]];
        r := Ok(Lend(obtained, Block(inv, slot)));
      }
    }

    /** Merges a stack into a slot shown by a view; what does not fit is returned. */
    method Put(view: View, slot: nat, stack: BorrowedStack) returns (r: Result<Content, ViewError>)
      requires ViewFits(State(), view)
      modifies this
      ensures (State(), r) == PutIntoView(old(State()), view, slot, stack)
    {
      if slot >= view.dimensions.height * view.dimensions.width {
        return Err(SlotOutOfRange);
      }
      if view.backing.Transient? {
        var cells := transient[view.id];
        if cells[slot].None? {
          transient := transient[view.id := cells[slot := Some(stack)]];
          return Ok(None);
        }
        var held := cells[slot].value;
        var inner := new Slot(Some(held.borrowedStack));
        var leftover := inner.TryMerge(Some(stack.borrowedStack));
        transient := transient[view.id :=
          cells[slot := Lend(inner.stack, held.borrowsFrom.Or(stack.borrowsFrom))]];
        r := Ok(Lend(leftover, stack.borrowsFrom));
      } else if view.backing.Stored? {
        var key := view.backing.key;
        var loaded := LoadInventory(key);
        if loaded.Err? {
          return Err(loaded.error);
        }
        var leftover := loaded.value.MergeInto(slot, Some(stack.borrowedStack));
        SaveInventory(key, loaded.value);
        r := Ok(Lend(leftover, stack.borrowsFrom));
      } else {
        var inv := view.backing.inv;
        if inv !in inBlock {
          return Ok(Some(stack));
        }
        var contents := new Inventory.FromParsed(view.dimensions, inBlock[inv]);
        var leftover := contents.MergeInto(slot, Some(stack.borrowedStack));
        inBlock := inBlock[inv := contents.contents[..]];
        r := Ok(Lend(leftover, stack.borrowsFrom));
      }
    }

    /** Gives a borrowed stack back to where it came from. */
    method GiveBack(stack: BorrowedStack) returns (r: Result<MaybeStack, ViewError>)
      modifies this
      ensures (State(), r) == ReturnHome(old(State()), stack)
    {
      if stack.borrowsFrom.Global? {
        var key, slot := stack.borrowsFrom.key, stack.borrowsFrom.slot;
        var loaded := LoadInventory(key);
        if loaded.Err? {
          return Err(loaded.error);
        }
        var inv := loaded.value;
        if slot >= inv.contents.Length {
          SaveInventory(key, inv);
          return Err(SlotOutOfRange);
        }
        var leftover := inv.MergeInto(slot, Some(stack.borrowedStack));
        if leftover.Some? {
          leftover := inv.TryInsert(leftover.value);
        }
        SaveInventory(key, inv);
        r := Ok(leftover);
      } else if stack.borrowsFrom.Block? {
        var place, slot := stack.borrowsFrom.inv, stack.borrowsFrom.slot;
        if place !in inBlock {
          return Ok(Some(stack.borrowedStack));
        }
        var inv := new Inventory.FromParsed(Dimensions(1, 1), inBlock[place]);
        if slot >= inv.contents.Length {
          return Err(SlotOutOfRange);
        }
        var leftover := inv.MergeInto(slot, Some(stack.borrowedStack));
        if leftover.Some? {
          leftover := inv.TryInsert(leftover.value);
        }
        inBlock := inBlock[place := inv.contents[..]];
        r := Ok(leftover);
      } else {
        r := Ok(Some(stack.borrowedStack));
      }
    }

    /** Empties a transient view. The stacks nobody could take are logged by the source; here they are returned. */
    method ClearIfTransient(view: View, owner: Option<InventoryKey>)
      returns (error: Option<ViewError>, lost: seq<ItemStack>)
      requires ViewFits(State(), view)
      modifies this
      ensures Cleared(State(), error, lost) == ClearView(old(State()), view, owner)
    {
      lost := [];
      if !view.backing.Transient? {
        return None, [];
      }
      var i := 0;
      while i < |transient[view.id]|
        invariant view.id in transient && i <= |transient[view.id]|
        invariant ClearFrom(old(State()), view.id, 0, owner, []) == ClearFrom(State(), view.id, i, owner, lost)
        decreases |transient[view.id]| - i
      {
        var cells := transient[view.id];
        if cells[i].Some? {
          var stack := cells[i].value;
          transient := transient[view.id := cells[i := None]];
          ghost var emptied := State();
          ReturnStackFrame(emptied, stack, owner);
          var leftover := GiveBack(stack);
          if leftover.Err? {
            return Some(leftover.error), lost + [stack.borrowedStack];
          }
          if leftover.value.Some? {
            if owner.Some? {
              var loaded := LoadInventory(owner.value);
              if loaded.Err? {
                return Some(loaded.error), lost + [leftover.value.value];
              }
              var rest := loaded.value.TryInsert(leftover.value.value);
              SaveInventory(owner.value, loaded.value);
              lost := lost + Dropped(rest);
            } else {
              lost := lost + [leftover.value.value];
            }
          } else {
            assert lost + [] == lost;
          }
        }
        i := i + 1;
      }
      error := None;
    }
  }
}
