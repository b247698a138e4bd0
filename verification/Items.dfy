/** Item stacks, and the slot operations of `MaybeStack` (cuberef_server/src/game_state/items.rs). */
module Items {
  import opened Wrappers

  datatype ItemStack = ItemStack(itemName: string, quantity: u32, maxStack: u32, stackable: bool)

  type MaybeStack = Option<ItemStack>

  /** A stack as the item definitions produce it: named, and stackable exactly when it has room for items. */
  predicate WellFormed(s: ItemStack) {
    && s.itemName != ""
    && (s.stackable <==> s.maxStack > 0)
    && (s.stackable ==> s.quantity <= s.maxStack)
  }

  predicate WellFormedSlot(s: MaybeStack) { s.Some? ==> WellFormed(s.value) }

  predicate WellFormedSlots(s: seq<MaybeStack>) { forall i :: 0 <= i < |s| ==> WellFormedSlot(s[i]) }

  /** How many of `item` a slot holds. */
  function Count(s: MaybeStack, item: string): nat {
    if s.Some? && s.value.itemName == item then s.value.quantity else 0
  }

  /** How many of `item` a row of slots holds. */
  function Total(s: seq<MaybeStack>, item: string): nat {
    if s == [] then 0 else Count(s[0], item) + Total(s[1..], item)
  }

  lemma {:induction false} TotalUpdate(s: seq<MaybeStack>, i: nat, x: MaybeStack, item: string)
    requires i < |s|
    ensures Total(s[i := x], item) == Total(s, item) - Count(s[i], item) + Count(x, item)
  {
    if i == 0 {
      assert s[i := x][1..] == s[1..];
    } else {
      TotalUpdate(s[1..], i - 1, x, item);
      assert s[i := x][1..] == s[1..][i - 1 := x];
    }
  }

  /** Two stacks can be combined at all: both have stacking room and they hold the same item. */
  predicate Mergeable(a: ItemStack, b: ItemStack) {
    a.maxStack != 0 && b.maxStack != 0 && a.itemName == b.itemName
  }

  /** What merging `other` into a slot leaves in the slot and in hand. */
  function Merge(slot: MaybeStack, other: MaybeStack): (MaybeStack, MaybeStack) {
    if other.None? then (slot, None)
    else if slot.None? then (other, None)
    else if !Mergeable(slot.value, other.value) then (slot, other)
    else
      var moved := Min(other.value.quantity, SaturatingSub(slot.value.maxStack, slot.value.quantity));
      (Some(slot.value.(quantity := slot.value.quantity + moved)),
       if moved == other.value.quantity then None
       else Some(other.value.(quantity := other.value.quantity - moved)))
  }

  /** What taking `count` items (or everything) leaves in the slot and in hand. */
  function Take(slot: MaybeStack, count: Option<u32>): (MaybeStack, MaybeStack) {
    if slot.None? then (None, None)
    else if count.None? then (None, slot)
    else if !slot.value.stackable then (slot, None)
    else if slot.value.quantity <= count.value then (None, slot)
    else (Some(slot.value.(quantity := slot.value.quantity - count.value)),
          Some(slot.value.(quantity := count.value)))
  }

  /** The all-or-nothing merge. */
  function MergeAll(slot: MaybeStack, other: MaybeStack): (MaybeStack, bool) {
    var (merged, leftover) := Merge(slot, other);
    if leftover.None? then (merged, true) else (slot, false)
  }

  /** The all-or-nothing take. */
  function TakeAll(slot: MaybeStack, count: Option<u32>): (MaybeStack, MaybeStack) {
    if slot.Some? && count.Some? && slot.value.quantity < count.value then (slot, None) else Take(slot, count)
  }

  /** Merging neither makes nor loses an item, leaves a remainder only when the slot cannot take more,
      and does not touch stacks it cannot combine. */
  lemma MergeExact(slot: MaybeStack, other: MaybeStack)
    ensures var (s, rest) := Merge(slot, other);
      && (forall item :: Count(s, item) + Count(rest, item) == Count(slot, item) + Count(other, item))
      && (rest.Some? <==>
            && slot.Some? && other.Some?
            && (Mergeable(slot.value, other.value) ==>
                  slot.value.quantity + other.value.quantity > slot.value.maxStack && other.value.quantity > 0))
      && (rest.Some? && Mergeable(slot.value, other.value) ==> s.value.quantity >= s.value.maxStack)
      && (rest.Some? ==> rest == Some(other.value.(quantity := rest.value.quantity)))
      && (slot.Some? ==> s == Some(slot.value.(quantity := s.value.quantity)))
      && (s.Some? <==> slot.Some? || other.Some?)
      && (WellFormedSlot(slot) && WellFormedSlot(other) ==> WellFormedSlot(s) && WellFormedSlot(rest))
  {
  }

  /** Taking conserves items, hands over at most what was asked for, and refuses to split what does not stack. */
  lemma TakeExact(slot: MaybeStack, count: Option<u32>)
    ensures var (s, taken) := Take(slot, count);
      && (forall item :: Count(s, item) + Count(taken, item) == Count(slot, item))
      && (taken.None? <==> slot.None? || (count.Some? && !slot.value.stackable))
      && (taken.Some? && count.Some? ==> taken.value.quantity == Min(slot.value.quantity, count.value))
      && (taken.Some? ==> taken == Some(slot.value.(quantity := taken.value.quantity)))
      && (s.Some? ==> s == Some(slot.value.(quantity := s.value.quantity)))
      && (s.Some? && taken.Some? ==> s.value.quantity > 0)
      && (WellFormedSlot(slot) ==> WellFormedSlot(s) && WellFormedSlot(taken))
  {
  }

  /** What was split off a well-formed stack always fits back where it came from, in whole or in part. */
  lemma TakeThenMergeBack(slot: MaybeStack, count: Option<u32>, back: MaybeStack)
    requires WellFormedSlot(slot)
    requires var (_, taken) := Take(slot, count);
      back.Some? ==>
        && taken.Some?
        && back == Some(taken.value.(quantity := back.value.quantity))
        && back.value.quantity <= taken.value.quantity
    ensures Merge(Take(slot, count).0, back).1 == None
  {
  }

  /** Put back whole, it restores the slot. */
  lemma TakeThenMergeRestores(slot: MaybeStack, count: Option<u32>)
    requires WellFormedSlot(slot)
    ensures Merge(Take(slot, count).0, Take(slot, count).1).0 == slot
  {
  }

  /** The all-or-nothing forms do exactly what the plain ones do when everything fits, and nothing otherwise. */
  lemma AllOrNothing(slot: MaybeStack, other: MaybeStack, count: Option<u32>)
    ensures var (s, ok) := MergeAll(slot, other);
      && (!ok ==> s == slot)
      && (ok ==> forall item :: Count(s, item) == Count(slot, item) + Count(other, item))
      && (slot.Some? && other.Some? ==>
            (ok <==> Mergeable(slot.value, other.value)
                     && other.value.quantity <= SaturatingSub(slot.value.maxStack, slot.value.quantity)))
    ensures var (s, taken) := TakeAll(slot, count);
      && (taken.Some? ==> Take(slot, count) == (s, taken))
      && (taken.None? ==> s == slot)
      && (taken.Some? && count.Some? ==> taken.value.quantity == count.value)
  {
  }

  /** `ItemStack::decrement`: a stack with one item fewer, gone when that was the last. */
  function Decrement(s: ItemStack): (r: MaybeStack)
    ensures Count(r, s.itemName) == if s.quantity == 0 then 0 else s.quantity - 1
    ensures r.Some? ==> r.value.quantity > 0 && r.value == s.(quantity := r.value.quantity)
  {
    if s.quantity <= 1 then None else Some(s.(quantity := s.quantity - 1))
  }

  /** A mutable slot: the receiver of the `MaybeStack` operations. */
  class Slot {
    var stack: MaybeStack

    constructor (stack: MaybeStack)
      ensures this.stack == stack
    {
      this.stack := stack;
    }

    method TryMerge(other: MaybeStack) returns (leftover: MaybeStack)
      modifies this
      ensures (stack, leftover) == Merge(old(stack), other)
    {
      if other.None? {
        return None;
      }
      if stack.None? {
        stack := other;
        return None;
      }
      var mine, theirs := stack.value, other.value;
      if mine.maxStack == 0 {
        return other;
      }
      if theirs.maxStack == 0 {
        return other;
      }
      if mine.itemName != theirs.itemName {
        return other;
      }
      var moveSize := Min(theirs.quantity, SaturatingSub(mine.maxStack, mine.quantity));
      stack := Some(mine.(quantity := mine.quantity + moveSize));
      var remaining := theirs.quantity - moveSize;
      if remaining == 0 {
        leftover := None;
      } else {
        leftover := Some(theirs.(quantity := remaining));
      }
    }

    method TryMergeAll(other: MaybeStack) returns (ok: bool)
      modifies this
      ensures (stack, ok) == MergeAll(old(stack), other)
    {
      if other.None? {
        return true;
      }
      if stack.None? {
        stack := other;
        return true;
      }
      var mine, theirs := stack.value, other.value;
      if mine.maxStack == 0 || theirs.maxStack == 0 || mine.itemName != theirs.itemName {
        return false;
      }
      var availableSpace := SaturatingSub(mine.maxStack, mine.quantity);
      if availableSpace < theirs.quantity {
        return false;
      }
      stack := Some(mine.(quantity := mine.quantity + theirs.quantity));
      ok := true;
    }

    method TakeItems(count: Option<u32>) returns (taken: MaybeStack)
      modifies this
      ensures (stack, taken) == Take(old(stack), count)
    {
      if count.None? {
        taken := stack;
        stack := None;
        return;
      }
      if stack.None? || !stack.value.stackable {
        return None;
      }
      var selfCount := stack.value.quantity;
      var takenCount := Min(selfCount, count.value);
      var remaining := SaturatingSub(selfCount, count.value);
      if remaining == 0 {
        taken := stack;
        stack := None;
      } else {
        stack := Some(stack.value.(quantity := remaining));
        taken := Some(stack.value.(quantity := takenCount));
      }
    }

    /** The source unwraps the slot when a count is given, so callers must not ask a count of an empty slot. */
    method TryTakeAll(count: Option<u32>) returns (taken: MaybeStack)
      requires count.Some? ==> stack.Some?
      modifies this
      ensures (stack, taken) == TakeAll(old(stack), count)
    {
      if count.None? {
        taken := stack;
        stack := None;
        return;
      }
      if !stack.value.stackable {
        return None;
      }
      var available := stack.value.quantity;
      if available == count.value {
        taken := stack;
        stack := None;
      } else if available > count.value {
        stack := Some(stack.value.(quantity := available - count.value));
        taken := Some(stack.value.(quantity := count.value));
      } else {
        taken := None;
      }
    }
  }
}
