/** What a click on a slot of an inventory window is to do, told from the two stacks before and after it
    (`handle_moves`, cuberef_client/src/game_ui/egui_ui.rs). */
module ClickRules {
  import opened Wrappers
  import opened Items
  import opened Inventories
  import opened InventoryViews
  import opened PlayerActions

  datatype ClientInventory = ClientInventory(
    dimensions: Dimensions, stacks: seq<MaybeStack>, canPlace: bool, canTake: bool, takeExact: bool)

  type ClientViews = map<ViewId, ClientInventory>

  datatype ClickType = LeftClick | RightClick

  // ----- which of the rules applies --------------------------------------------------------------------------------

  /** The carried stack can be added to the clicked one. */
  predicate GoesOnto(inv: ClientInventory, clicked: MaybeStack, carried: MaybeStack) {
    && clicked.Some? && carried.Some? && inv.canPlace
    && clicked.value.itemName == carried.value.itemName && carried.value.stackable
  }

  /** The clicked stack can be added to the carried one, and not the other way round. */
  predicate ComesOnto(inv: ClientInventory, clicked: MaybeStack, carried: MaybeStack) {
    && clicked.Some? && carried.Some? && inv.canTake && !GoesOnto(inv, clicked, carried)
    && clicked.value.itemName == carried.value.itemName && clicked.value.stackable
  }

  predicate Exchanges(inv: ClientInventory, clicked: MaybeStack, carried: MaybeStack) {
    && clicked.Some? && carried.Some? && inv.canPlace && inv.canTake
    && !GoesOnto(inv, clicked, carried) && !ComesOnto(inv, clicked, carried)
  }

  predicate GoesIntoEmptySlot(inv: ClientInventory, clicked: MaybeStack, carried: MaybeStack) {
    clicked.None? && carried.Some? && inv.canPlace
  }

  predicate ComesIntoEmptyHand(inv: ClientInventory, clicked: MaybeStack, carried: MaybeStack) {
    clicked.Some? && carried.None? && inv.canTake
  }

  predicate HasRoom(s: MaybeStack) { s.Some? && s.value.quantity < s.value.maxStack }

  /** Nothing is taken from an exact slot, such as the result of crafting, unless all of it fits into the hand; and the
      half of the largest stack that there can be is none, since it is computed in 32 bits. */
  predicate MayCome(inv: ClientInventory, click: ClickType, clicked: MaybeStack, carried: MaybeStack)
    requires clicked.Some? && carried.Some?
  {
    && HasItems(clicked)
    && if inv.takeExact then clicked.value.quantity + carried.value.quantity <= carried.value.maxStack
       else HasRoom(carried) && (click.RightClick? ==> clicked.value.quantity < U32_MAX)
  }

  // ----- what the rules ask for ------------------------------------------------------------------------------------

  /** Items went from one slot onto the stack in another, and the slot is empty if all of them went. */
  predicate Went(from: ItemStack, to: ItemStack, from': MaybeStack, to': MaybeStack) {
    && to'.Some? && to'.value == to.(quantity := to'.value.quantity)
    && to.quantity < to'.value.quantity <= to.maxStack
    && QuantityOf(from') + to'.value.quantity == from.quantity + to.quantity
    && (from'.Some? ==> from'.value == from.(quantity := from'.value.quantity) && from'.value.quantity > 0)
  }

  /** Half of a quantity, rounded up. */
  predicate IsUpperHalf(half: int, quantity: int) { 2 * half == quantity || 2 * half == quantity + 1 }

  /** A left click adds all of the carried stack, or fills the clicked one; a right click adds one item. */
  predicate AddsToClicked(click: ClickType, there: ItemStack, here: ItemStack, there': MaybeStack, here': MaybeStack) {
    && Went(here, there, here', there')
    && match click
       case LeftClick => here'.None? || there'.value.quantity == there.maxStack
       case RightClick => there'.value.quantity == there.quantity + 1
  }

  /** A left click adds all of the clicked stack, or fills the hand, and an exact slot is always emptied; a right click
      adds the upper half, or as much of it as fits. */
  predicate AddsToCarried(
    inv: ClientInventory, click: ClickType, there: ItemStack, here: ItemStack, there': MaybeStack, here': MaybeStack)
  {
    && Went(there, here, there', here')
    && var moved := here'.value.quantity - here.quantity;
       if inv.takeExact then there'.None?
       else match click
         case LeftClick => there'.None? || here'.value.quantity == here.maxStack
         case RightClick =>
           || IsUpperHalf(moved, there.quantity)
           || (here'.value.quantity == here.maxStack && 2 * moved <= there.quantity)
  }

  /** A left click puts all of the carried stack into the empty slot, a right click one item. */
  predicate FillsSlot(click: ClickType, here: ItemStack, there': MaybeStack, here': MaybeStack) {
    if click.LeftClick? || here.quantity <= 1 then there' == Some(here) && here'.None?
    else there' == Some(here.(quantity := 1)) && here' == Some(here.(quantity := here.quantity - 1))
  }

  /** A left click takes the whole stack, and so does any click on an exact slot; a right click takes the upper half,
      but for the largest stack there can be, of which it takes a stack of no items. */
  predicate FillsHand(
    inv: ClientInventory, click: ClickType, there: ItemStack, there': MaybeStack, here': MaybeStack)
  {
    if click.LeftClick? || inv.takeExact || there.quantity <= 1 then there'.None? && here' == Some(there)
    else
      && there'.Some? && there'.value == there.(quantity := there'.value.quantity)
      && here'.Some? && here'.value == there.(quantity := here'.value.quantity)
      && there'.value.quantity + here'.value.quantity == there.quantity
      && if there.quantity == U32_MAX then here'.value.quantity == 0
         else IsUpperHalf(here'.value.quantity, there.quantity)
  }

  /** The two slots after a click that something comes of, which is exactly a click for which an action is sent. */
  predicate Moves(
    inv: ClientInventory, click: ClickType, clicked: MaybeStack, carried: MaybeStack,
    clicked': MaybeStack, carried': MaybeStack)
  {
    if GoesOnto(inv, clicked, carried) then
      AddsToClicked(click, clicked.value, carried.value, clicked', carried')
    else if ComesOnto(inv, clicked, carried) then
      AddsToCarried(inv, click, clicked.value, carried.value, clicked', carried')
    else if Exchanges(inv, clicked, carried) then (clicked', carried') == (carried, clicked)
    else if GoesIntoEmptySlot(inv, clicked, carried) then FillsSlot(click, carried.value, clicked', carried')
    else ComesIntoEmptyHand(inv, clicked, carried) && FillsHand(inv, click, clicked.value, clicked', carried')
  }

  /** A click comes to nothing exactly if a permission or the room for the items is missing, if both slots are empty, or
      if an exact slot cannot be emptied. */
  predicate ComesToNothing(inv: ClientInventory, click: ClickType, clicked: MaybeStack, carried: MaybeStack) {
    if clicked.None? && carried.None? then true
    else if clicked.None? then !inv.canPlace
    else if carried.None? then !inv.canTake
    else if GoesOnto(inv, clicked, carried) then !HasRoom(clicked) || !HasItems(carried)
    else if ComesOnto(inv, clicked, carried) then !MayCome(inv, click, clicked, carried)
    else !inv.canPlace || !inv.canTake
  }

  /** The action that tells the server: from where to where, and how many items are there that were not before. */
  function ActionOf(
    inv: ClientInventory, clicked: MaybeStack, carried: MaybeStack, clicked': MaybeStack, carried': MaybeStack,
    clickedView: ViewId, index: nat, carriedView: ViewId): Option<InventoryAction>
  {
    var put, got := QuantityOf(clicked') - QuantityOf(clicked), QuantityOf(carried') - QuantityOf(carried);
    if Exchanges(inv, clicked, carried) then
      Some(InventoryAction(carriedView, 0, clickedView, index, 0, true))
    else if GoesOnto(inv, clicked, carried) || GoesIntoEmptySlot(inv, clicked, carried) then
      if put < 0 then None else Some(InventoryAction(carriedView, 0, clickedView, index, put, false))
    else if got < 0 then None else Some(InventoryAction(clickedView, index, carriedView, 0, got, false))
  }

  /** Only the clicked slot and the hand may differ between two states of the client's views. */
  predicate OthersKept(before: ClientViews, after: ClientViews, clicked: ViewId, index: nat, hand: ViewId) {
    && after.Keys == before.Keys
    && (forall id :: id in before ==>
          |after[id].stacks| == |before[id].stacks| && after[id] == before[id].(stacks := after[id].stacks))
    && (forall id, k :: id in before && 0 <= k < |before[id].stacks|
                        && (id, k) != (clicked, index) && (id, k) != (hand, 0) ==>
          after[id].stacks[k] == before[id].stacks[k])
  }

  /** A click on a slot, while the hand is the first slot of another view. */
  predicate FollowsRules(
    before: ClientViews, after: ClientViews, clicked: ViewId, index: nat, hand: ViewId, click: ClickType,
    action: Option<InventoryAction>)
    requires clicked in before && index < |before[clicked].stacks| && clicked != hand
  {
    if hand !in before || before[hand].stacks == [] then after == before && action.None?
    else
      var inv, there, here := before[clicked], before[clicked].stacks[index], before[hand].stacks[0];
      && OthersKept(before, after, clicked, index, hand)
      && var there', here' := after[clicked].stacks[index], after[hand].stacks[0];
         if ComesToNothing(inv, click, there, here) then (there', here') == (there, here) && action.None?
         else
           && Moves(inv, click, there, here, there', here')
           && action.Some? && action == ActionOf(inv, there, here, there', here', clicked, index, hand)
  }
}
