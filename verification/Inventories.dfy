/** Inventories: insertion, and their database form (cuberef_server/src/game_state/inventory.rs). */
module Inventories {
  import opened Wrappers
  import opened Items

  datatype Dimensions = Dimensions(height: u32, width: u32)

  function Size(d: Dimensions): nat { d.height * d.width }

  /** Merging a stack into every occupied slot from `i` on, first to last. */
  function MergeFrom(slots: seq<MaybeStack>, i: nat, stack: ItemStack): (seq<MaybeStack>, MaybeStack)
    requires i <= |slots|
    decreases |slots| - i
  {
    if i == |slots| then (slots, Some(stack))
    else if slots[i].None? then MergeFrom(slots, i + 1, stack)
    else
      var (merged, rest) := Merge(slots[i], Some(stack));
      if rest.None? then (slots[i := merged], None) else MergeFrom(slots[i := merged], i + 1, rest.value)
  }

  /** Placing a stack into the first empty slot from `i` on. */
  function PlaceFrom(slots: seq<MaybeStack>, i: nat, stack: ItemStack): (seq<MaybeStack>, MaybeStack)
    requires i <= |slots|
    decreases |slots| - i
  {
    if i == |slots| then (slots, Some(stack))
    else if slots[i].None? then (slots[i := Some(stack)], None)
    else PlaceFrom(slots, i + 1, stack)
  }

  /** `Inventory::try_insert`: the slots afterwards, and what could not be inserted. */
  function Insert(slots: seq<MaybeStack>, stack: ItemStack): (seq<MaybeStack>, MaybeStack) {
    var (merged, rest) := MergeFrom(slots, 0, stack);
    if rest.None? then (merged, None) else PlaceFrom(merged, 0, rest.value)
  }

  predicate MergeableSlot(s: MaybeStack, stack: ItemStack) { s.Some? && Mergeable(s.value, stack) }

  /** Room left for `stack` in the slots that can be merged with it. */
  function FreeSpace(slots: seq<MaybeStack>, stack: ItemStack): nat {
    if slots == [] then 0 else
      (if MergeableSlot(slots[0], stack)
       then SaturatingSub(slots[0].value.maxStack, slots[0].value.quantity) else 0)
      + FreeSpace(slots[1..], stack)
  }

  function QuantityOf(s: MaybeStack): nat { if s.Some? then s.value.quantity else 0 }

  predicate HasEmptySlot(slots: seq<MaybeStack>) { exists i :: 0 <= i < |slots| && slots[i].None? }

  predicate HasMergeableSlot(slots: seq<MaybeStack>, stack: ItemStack) {
    exists i :: 0 <= i < |slots| && MergeableSlot(slots[i], stack)
  }

  lemma {:induction false} MergeFromShape(slots: seq<MaybeStack>, i: nat, stack: ItemStack)
    requires i <= |slots|
    ensures var (s, rest) := MergeFrom(slots, i, stack);
      && |s| == |slots|
      && (forall j :: 0 <= j < |s| ==> (s[j].None? <==> slots[j].None?))
      && (WellFormedSlots(slots) && WellFormed(stack) ==> WellFormedSlots(s) && WellFormedSlot(rest))
      && (rest.Some? ==> rest.value == stack.(quantity := rest.value.quantity))
    decreases |slots| - i
  {
    if i < |slots| {
      if slots[i].None? {
        MergeFromShape(slots, i + 1, stack);
      } else {
        var (merged, rest) := Merge(slots[i], Some(stack));
        if rest.Some? { MergeFromShape(slots[i := merged], i + 1, rest.value); }
      }
    }
  }

  lemma {:induction false} MergeFromTotal(slots: seq<MaybeStack>, i: nat, stack: ItemStack, item: string)
    requires i <= |slots|
    ensures var (s, rest) := MergeFrom(slots, i, stack);
      Total(s, item) + Count(rest, item) == Total(slots, item) + Count(Some(stack), item)
    decreases |slots| - i
  {
    if i < |slots| {
      if slots[i].None? {
        MergeFromTotal(slots, i + 1, stack, item);
      } else {
        var (merged, rest) := Merge(slots[i], Some(stack));
        TotalUpdate(slots, i, merged, item);
        if rest.Some? { MergeFromTotal(slots[i := merged], i + 1, rest.value, item); }
      }
    }
  }

  lemma HasMergeableTail(slots: seq<MaybeStack>, stack: ItemStack)
    requires slots != []
    ensures HasMergeableSlot(slots, stack) <==> MergeableSlot(slots[0], stack) || HasMergeableSlot(slots[1..], stack)
  {
    if j :| 0 <= j < |slots[1..]| && MergeableSlot(slots[1..][j], stack) {
      assert MergeableSlot(slots[j + 1], stack);
    }
    if j :| 0 < j < |slots| && MergeableSlot(slots[j], stack) {
      assert MergeableSlot(slots[1..][j - 1], stack);
    }
  }

  lemma {:induction false} MergeFromRoom(slots: seq<MaybeStack>, i: nat, stack: ItemStack)
    requires i <= |slots|
    ensures var (_, rest) := MergeFrom(slots, i, stack);
      var free := FreeSpace(slots[i..], stack);
      && QuantityOf(rest) == (if stack.quantity > free then stack.quantity - free else 0)
      && (rest.Some? <==> (HasMergeableSlot(slots[i..], stack) ==> stack.quantity > free))
    decreases |slots| - i
  {
    if i < |slots| {
      var tail := slots[i..];
      assert tail[1..] == slots[i + 1..];
      HasMergeableTail(tail, stack);
      if slots[i].None? {
        MergeFromRoom(slots, i + 1, stack);
      } else {
        var (merged, rest) := Merge(slots[i], Some(stack));
        if rest.Some? {
          var later := slots[i := merged];
          MergeFromRoom(later, i + 1, rest.value);
          assert later[i + 1..] == tail[1..];
          FreeSpaceSameKind(tail[1..], stack, rest.value);
        }
      }
    }
  }

  /** Free space depends on the kind of stack only, not on how many items it holds. */
  lemma {:induction false} FreeSpaceSameKind(slots: seq<MaybeStack>, a: ItemStack, b: ItemStack)
    requires a.itemName == b.itemName && a.maxStack == b.maxStack
    ensures FreeSpace(slots, a) == FreeSpace(slots, b)
    ensures HasMergeableSlot(slots, a) <==> HasMergeableSlot(slots, b)
    ensures FreeSpace(slots, a) > 0 ==> HasMergeableSlot(slots, a)
  {
    if slots != [] {
      FreeSpaceSameKind(slots[1..], a, b);
      HasMergeableTail(slots, a);
    }
  }

  lemma {:induction false} PlaceFromExact(slots: seq<MaybeStack>, i: nat, stack: ItemStack, item: string)
    requires i <= |slots|
    ensures var (s, rest) := PlaceFrom(slots, i, stack);
      && |s| == |slots|
      && Total(s, item) + Count(rest, item) == Total(slots, item) + Count(Some(stack), item)
      && (WellFormedSlots(slots) && WellFormed(stack) ==> WellFormedSlots(s))
      && (rest.Some? ==> rest.value == stack && s == slots)
      && (rest.Some? <==> forall j :: i <= j < |slots| ==> slots[j].Some?)
      && (rest.None? ==> exists j :: i <= j < |slots| && slots[j].None? && s == slots[j := Some(stack)]
                           && forall k :: i <= k < j ==> slots[k].Some?)
    decreases |slots| - i
  {
    if i < |slots| {
      if slots[i].None? {
        TotalUpdate(slots, i, Some(stack), item);
        assert slots[i].None? && PlaceFrom(slots, i, stack).0 == slots[i := Some(stack)];
      } else {
        PlaceFromExact(slots, i + 1, stack, item);
      }
    }
  }

  /** Insertion conserves every item, keeps slots within their stack limits, leaves something over only when no slot
      is empty, and then exactly what the matching slots had no room for. */
  lemma InsertExact(slots: seq<MaybeStack>, stack: ItemStack, item: string)
    ensures var (s, rest) := Insert(slots, stack);
      && |s| == |slots|
      && Total(s, item) + Count(rest, item) == Total(slots, item) + Count(Some(stack), item)
      && (WellFormedSlots(slots) && WellFormed(stack) ==> WellFormedSlots(s) && WellFormedSlot(rest))
      && (rest.Some? ==> !HasEmptySlot(slots) && rest.value == stack.(quantity := rest.value.quantity))
      && (!HasEmptySlot(slots) ==>
            && QuantityOf(rest) == (if stack.quantity > FreeSpace(slots, stack)
                                    then stack.quantity - FreeSpace(slots, stack) else 0)
            && (rest.Some? <==> (HasMergeableSlot(slots, stack) ==> stack.quantity > FreeSpace(slots, stack))))
  {
    MergeFromShape(slots, 0, stack);
    MergeFromTotal(slots, 0, stack, item);
    MergeFromRoom(slots, 0, stack);
    assert slots[0..] == slots;
    var (merged, rest) := MergeFrom(slots, 0, stack);
    if rest.Some? { PlaceFromExact(merged, 0, rest.value, item); }
  }

  predicate IsFull(s: MaybeStack) { s.Some? && s.value.quantity >= s.value.maxStack }

  /** A slot can be filled only once all matching ones before it are full, and when items are left all of them are. */
  lemma {:induction false} MergeFromFills(slots: seq<MaybeStack>, i: nat, stack: ItemStack)
    requires i <= |slots|
    ensures var (s, rest) := MergeFrom(slots, i, stack);
      && |s| == |slots|
      && (forall j :: 0 <= j < i ==> s[j] == slots[j])
      && (forall j :: 0 <= j < |s| && (!MergeableSlot(slots[j], stack) || IsFull(slots[j])) ==> s[j] == slots[j])
      && (forall j, k :: i <= j < k < |s| && MergeableSlot(slots[j], stack) && s[k] != slots[k] ==> IsFull(s[j]))
      && (rest.Some? ==> forall j :: i <= j < |s| && MergeableSlot(slots[j], stack) ==> IsFull(s[j]))
    decreases |slots| - i
  {
    if i < |slots| {
      if slots[i].None? {
        MergeFromFills(slots, i + 1, stack);
      } else {
        var (merged, rest) := Merge(slots[i], Some(stack));
        MergeExact(slots[i], Some(stack));
        if rest.Some? { MergeFromFills(slots[i := merged], i + 1, rest.value); }
      }
    }
  }

  /** Matching stacks are filled first to last, and an empty slot is used only once all of them are full: then it is the
      first one, and holds just what they had no room for. No other slot changes. */
  lemma InsertFillsFirst(slots: seq<MaybeStack>, stack: ItemStack)
    ensures var (s, rest) := Insert(slots, stack);
      && |s| == |slots|
      && (forall j, k ::
            0 <= j < k < |s| && MergeableSlot(slots[j], stack) && slots[k].Some? && s[k] != slots[k] ==> IsFull(s[j]))
      && (forall k :: 0 <= k < |s| && slots[k].Some? && (!MergeableSlot(slots[k], stack) || IsFull(slots[k])) ==>
            s[k] == slots[k])
      && (rest.Some? ==> forall j :: 0 <= j < |s| && MergeableSlot(slots[j], stack) ==> IsFull(s[j]))
      && (forall k :: 0 <= k < |s| && slots[k].None? && s[k].Some? ==>
            && (forall j :: 0 <= j < |s| && MergeableSlot(slots[j], stack) ==> IsFull(s[j]))
            && (forall j :: 0 <= j < k ==> slots[j].Some?)
            && s[k].value == stack.(quantity := s[k].value.quantity)
            && s[k].value.quantity ==
                 (if stack.quantity > FreeSpace(slots, stack) then stack.quantity - FreeSpace(slots, stack) else 0))
  {
    hide Merge, FreeSpace, MergeFrom, PlaceFrom, Total, WellFormedSlots, HasMergeableSlot, IsFull, Mergeable;
    MergeFromFills(slots, 0, stack);
    MergeFromShape(slots, 0, stack);
    MergeFromRoom(slots, 0, stack);
    assert slots[0..] == slots;
    var (merged, rest) := MergeFrom(slots, 0, stack);
    if rest.Some? {
      PlaceFromExact(merged, 0, rest.value, "");
      var s := PlaceFrom(merged, 0, rest.value).0;
      forall k | 0 <= k < |s| && s[k] != merged[k]
        ensures merged[k].None? && s[k] == rest && forall j :: 0 <= j < k ==> merged[j].Some?
      {
      }
    }
  }

  // ----- database form ---------------------------------------------------------------------------------------------

  datatype InventoryProto = InventoryProto(height: u32, width: u32, contents: seq<ItemStack>)

  datatype InventoryError = SizeOverflowed | SizeMismatch | EmptyInventory

  const EMPTY_STACK := ItemStack("", 0, 0, false)

  function SlotToProto(s: MaybeStack): ItemStack { if s.Some? then s.value else EMPTY_STACK }

  /** `ItemStack::from_proto`: a stack without a name is an empty slot, whatever its quantity says. */
  function SlotFromProto(p: ItemStack): MaybeStack { if p.itemName == "" then None else Some(p) }

  function SlotsToProto(s: seq<MaybeStack>): seq<ItemStack> {
    seq(|s|, i requires 0 <= i < |s| => SlotToProto(s[i]))
  }

  function SlotsFromProto(p: seq<ItemStack>): seq<MaybeStack> {
    seq(|p|, i requires 0 <= i < |p| => SlotFromProto(p[i]))
  }

  function ToProto(d: Dimensions, slots: seq<MaybeStack>): InventoryProto {
    InventoryProto(d.height, d.width, SlotsToProto(slots))
  }

  function FromProto(p: InventoryProto): Result<(Dimensions, seq<MaybeStack>), InventoryError> {
    var size := p.width * p.height;
    if size > U32_MAX then Err(SizeOverflowed)
    else if size != |p.contents| then Err(SizeMismatch)
    else if size == 0 then Err(EmptyInventory)
    else Ok((Dimensions(p.height, p.width), SlotsFromProto(p.contents)))
  }

  /** An inventory survives its database form exactly when it has slots, as many as its dimensions say (in 32 bits),
      and no stack in it is nameless. */
  lemma ProtoRoundTrip(d: Dimensions, slots: seq<MaybeStack>)
    ensures FromProto(ToProto(d, slots)) == Ok((d, slots)) <==>
      && |slots| == Size(d) && 0 < Size(d) <= U32_MAX
      && forall i :: 0 <= i < |slots| && slots[i].Some? ==> slots[i].value.itemName != ""
  {
    var back := SlotsFromProto(SlotsToProto(slots));
    assert forall i :: 0 <= i < |slots| ==> back[i] == SlotFromProto(SlotToProto(slots[i]));
    assert back == slots <==> forall i :: 0 <= i < |slots| ==> back[i] == slots[i];
  }

  /** A row of item stacks that is changed in place. */
  class Inventory {
    var dimensions: Dimensions
    var contents: array<MaybeStack>

    /** An inventory read from its database form. */
    constructor FromParsed(dimensions: Dimensions, slots: seq<MaybeStack>)
      ensures this.dimensions == dimensions && contents[..] == slots
      ensures fresh(contents)
    {
      this.dimensions := dimensions;
      contents := new MaybeStack[|slots|](i requires 0 <= i < |slots| => slots[i]);
    }

    method TryInsert(stack: ItemStack) returns (leftover: MaybeStack)
      modifies contents
      ensures (contents[..], leftover) == Insert(old(contents[..]), stack)
    {
      ghost var was := contents[..];
      var remaining := stack;
      for i := 0 to contents.Length
        invariant MergeFrom(was, 0, stack) == MergeFrom(contents[..], i, remaining)
      {
        if contents[i].Some? {
          var slot := new Slot(contents[i]);
          var rest := slot.TryMerge(Some(remaining));
          ghost var before := contents[..];
          contents[i] := slot.stack;
          assert contents[..] == before[i := slot.stack];
          if rest.None? {
            return None;
          }
          remaining := rest.value;
        }
      }
      ghost var merged := contents[..];
      for i := 0 to contents.Length
        invariant contents[..] == merged
        invariant PlaceFrom(merged, 0, remaining) == PlaceFrom(merged, i, remaining)
      {
        if contents[i].None? {
          contents[i] := Some(remaining);
          assert contents[..] == merged[i := Some(remaining)];
          return None;
        }
      }
      leftover := Some(remaining);
    }

    /** The borrow of one slot that the callers mutate through: a merge into it, or a take out of it. */
    method MergeInto(slot: nat, stack: MaybeStack) returns (leftover: MaybeStack)
      requires slot < contents.Length
      modifies contents
      ensures contents[..] == old(contents[..])[slot := Merge(old(contents[slot]), stack).0]
      ensures leftover == Merge(old(contents[slot]), stack).1
    {
      var cell := new Slot(contents[slot]);
      leftover := cell.TryMerge(stack);
      contents[slot] := cell.stack;
    }

    method TakeFrom(slot: nat, count: Option<u32>) returns (taken: MaybeStack)
      requires slot < contents.Length
      modifies contents
      ensures contents[..] == old(contents[..])[slot := Take(old(contents[slot]), count).0]
      ensures taken == Take(old(contents[slot]), count).1
    {
      var cell := new Slot(contents[slot]);
      taken := cell.TakeItems(count);
      contents[slot] := cell.stack;
    }
  }
}
