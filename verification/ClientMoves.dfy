/** The client's prediction of an inventory action (`handle_moves`, cuberef_client/src/game_ui/egui_ui.rs). */
module ClientMoves {
  import opened Wrappers
  import opened Items
  import opened Inventories
  import opened InventoryViews
  import opened PlayerActions
  import opened ClickRules

  /** What a click decides to do with the clicked and the carried stack. */
  datatype Decision = NoMove | Place(count: u32) | PickUp(count: u32) | Exchange

  /** Half of a stack, rounded up; the addition wraps at the largest quantity. */
  function UpperHalf(quantity: u32): u32 { ((quantity + 1) % 0x1_0000_0000) / 2 }

  function Decide(inv: ClientInventory, clicked: MaybeStack, carried: MaybeStack, click: ClickType): Decision {
    if clicked.Some? && carried.Some? then
      var there, here := clicked.value, carried.value;
      if inv.canPlace && there.itemName == here.itemName && here.stackable then
        var room := Min(SaturatingSub(there.maxStack, there.quantity), here.quantity);
        var quantity := if click.RightClick? then Min(room, 1) else room;
        if quantity > 0 then Place(quantity) else NoMove
      else if inv.canTake && there.itemName == here.itemName && there.stackable then
        var room := Min(SaturatingSub(here.maxStack, here.quantity), there.quantity);
        var quantity := if !inv.takeExact && click.RightClick? then Min(room, UpperHalf(there.quantity)) else room;
        if inv.takeExact && quantity < there.quantity then NoMove
        else if quantity > 0 then PickUp(quantity) else NoMove
      else if inv.canPlace && inv.canTake then Exchange
      else NoMove
    else if carried.Some? && inv.canPlace then
      Place(if click.RightClick? then Min(carried.value.quantity, 1) else carried.value.quantity)
    else if clicked.Some? && inv.canTake then
      var quantity := clicked.value.quantity;
      PickUp(if !inv.takeExact && click.RightClick? then Min(quantity, UpperHalf(quantity)) else quantity)
    else NoMove
  }

  /** Shifting `count` items from one slot to the other, as the client shows it. */
  function Shift(from: ItemStack, to: MaybeStack, count: u32): (MaybeStack, MaybeStack)
    requires count <= from.quantity
    requires to.Some? ==> to.value.quantity + count <= U32_MAX
  {
    (if count == from.quantity then None else Some(from.(quantity := from.quantity - count)),
     Some(if to.Some? then to.value.(quantity := to.value.quantity + count) else from.(quantity := count)))
  }

  /** The clicked and the carried slot as the client shows them after a decision. */
  function Predicted(inv: ClientInventory, clicked: MaybeStack, carried: MaybeStack, click: ClickType)
    : (MaybeStack, MaybeStack)
  {
    match Decide(inv, clicked, carried, click)
    case NoMove => (clicked, carried)
    case Exchange => (carried, clicked)
    case Place(count) =>
      var (from, to) := Shift(carried.value, clicked, count);
      (to, from)
    case PickUp(count) => Shift(clicked.value, carried, count)
  }

  function ActionFor(d: Decision, clickedView: ViewId, index: nat, carriedView: ViewId): Option<InventoryAction> {
    match d
    case NoMove => None
    case Place(count) => Some(InventoryAction(carriedView, 0, clickedView, index, count, false))
    case PickUp(count) => Some(InventoryAction(clickedView, index, carriedView, 0, count, false))
    case Exchange => Some(InventoryAction(carriedView, 0, clickedView, index, 0, true))
  }

  function SetStack(views: ClientViews, id: ViewId, index: nat, s: MaybeStack): ClientViews
    requires id in views && index < |views[id].stacks|
  {
    views[id := views[id].(stacks := views[id].stacks[index := s])]
  }

  lemma SetStackSame(views: ClientViews, id: ViewId, index: nat)
    requires id in views && index < |views[id].stacks|
    ensures SetStack(views, id, index, views[id].stacks[index]) == views
  {
    assert views[id].stacks[index := views[id].stacks[index]] == views[id].stacks;
  }

  /** `handle_moves`: the client's views afterwards and the action it sends. */
  function HandleMovesResult(views: ClientViews, clicked: ViewId, index: nat, manipulation: ViewId, click: ClickType)
    : (ClientViews, Option<InventoryAction>)
    requires clicked in views && index < |views[clicked].stacks| && clicked != manipulation
  {
    if manipulation !in views || views[manipulation].stacks == [] then (views, None)
    else
      var inv, there, here := views[clicked], views[clicked].stacks[index], views[manipulation].stacks[0];
      var (there', here') := Predicted(inv, there, here, click);
      var decision := Decide(inv, there, here, click);
      (SetStack(SetStack(views, manipulation, 0, here'), clicked, index, there'),
       ActionFor(decision, clicked, index, manipulation))
  }

  class InventoryViewManager {
    var inventoryViews: ClientViews

    constructor (views: ClientViews)
      ensures inventoryViews == views
    {
      inventoryViews := views;
    }

    method Store(id: ViewId, index: nat, s: MaybeStack)
      requires id in inventoryViews && index < |inventoryViews[id].stacks|
      modifies this
      ensures inventoryViews == SetStack(old(inventoryViews), id, index, s)
      ensures forall k :: k in old(inventoryViews) ==>
        k in inventoryViews && |inventoryViews[k].stacks| == |old(inventoryViews)[k].stacks|
    {
      inventoryViews := inventoryViews[id := inventoryViews[id].(stacks := inventoryViews[id].stacks[index := s])];
    }

    /** A click on an occupied slot while carrying something. */
    method CombineOrSwap(clickedId: ViewId, index: nat, manipulation: ViewId, click: ClickType)
      returns (action: Option<InventoryAction>)
      requires clickedId in inventoryViews && index < |inventoryViews[clickedId].stacks|
      requires manipulation in inventoryViews && inventoryViews[manipulation].stacks != []
      requires inventoryViews[clickedId].stacks[index].Some? && inventoryViews[manipulation].stacks[0].Some?
      requires clickedId != manipulation
      modifies this
      ensures (inventoryViews, action) ==
              HandleMovesResult(old(inventoryViews), clickedId, index, manipulation, click)
      ensures FollowsRules(old(inventoryViews), inventoryViews, clickedId, index, manipulation, click, action)
    {
      hide FollowsRules;
      ClickFollowsRules(inventoryViews, clickedId, index, manipulation, click);
      var inventory := inventoryViews[clickedId];
      var clicked, carried := inventory.stacks[index], inventoryViews[manipulation].stacks[0];
      var there, here := clicked.value, carried.value;
      if inventory.canPlace && there.itemName == here.itemName && here.stackable {
        action := AddToClicked(clickedId, index, manipulation, click);
      } else if inventory.canTake && there.itemName == here.itemName && there.stackable {
        action := AddToCarried(clickedId, index, manipulation, click);
      } else if inventory.canPlace && inventory.canTake {
        Store(manipulation, 0, clicked);
        Store(clickedId, index, carried);
        action := Some(InventoryAction(manipulation, 0, clickedId, index, 0, true));
      } else {
        SetStackSame(inventoryViews, manipulation, 0);
        SetStackSame(inventoryViews, clickedId, index);
        action := None;
      }
    }

    /** What is carried goes onto the clicked stack, as far as it fits. */
    method AddToClicked(clickedId: ViewId, index: nat, manipulation: ViewId, click: ClickType)
      returns (action: Option<InventoryAction>)
      requires clickedId in inventoryViews && index < |inventoryViews[clickedId].stacks|
      requires manipulation in inventoryViews && inventoryViews[manipulation].stacks != []
      requires inventoryViews[clickedId].stacks[index].Some? && inventoryViews[manipulation].stacks[0].Some?
      requires clickedId != manipulation && inventoryViews[clickedId].canPlace
      requires var there := inventoryViews[clickedId].stacks[index].value;
        var here := inventoryViews[manipulation].stacks[0].value;
        there.itemName == here.itemName && here.stackable
      modifies this
      ensures (inventoryViews, action) ==
              HandleMovesResult(old(inventoryViews), clickedId, index, manipulation, click)
      ensures FollowsRules(old(inventoryViews), inventoryViews, clickedId, index, manipulation, click, action)
    {
      hide FollowsRules;
      ClickFollowsRules(inventoryViews, clickedId, index, manipulation, click);
      hide SetStack;
      var there, here := inventoryViews[clickedId].stacks[index].value, inventoryViews[manipulation].stacks[0].value;
      SetStackSame(inventoryViews, manipulation, 0);
      SetStackSame(inventoryViews, clickedId, index);
      var quantity := Min(SaturatingSub(there.maxStack, there.quantity), here.quantity);
      if click.RightClick? {
        quantity := Min(quantity, 1);
      }
      if quantity > 0 && quantity == here.quantity {
        Store(manipulation, 0, None);
      } else if quantity > 0 {
        Store(manipulation, 0, Some(here.(quantity := here.quantity - quantity)));
      } else {
        return None;
      }
      Store(clickedId, index, Some(there.(quantity := there.quantity + quantity)));
      return Some(InventoryAction(manipulation, 0, clickedId, index, quantity, false));
    }

    /** What is clicked goes onto the carried stack, as far as it fits. */
    method AddToCarried(clickedId: ViewId, index: nat, manipulation: ViewId, click: ClickType)
      returns (action: Option<InventoryAction>)
      requires clickedId in inventoryViews && index < |inventoryViews[clickedId].stacks|
      requires manipulation in inventoryViews && inventoryViews[manipulation].stacks != []
      requires inventoryViews[clickedId].stacks[index].Some? && inventoryViews[manipulation].stacks[0].Some?
      requires clickedId != manipulation && inventoryViews[clickedId].canTake
      requires var there := inventoryViews[clickedId].stacks[index].value;
        var here := inventoryViews[manipulation].stacks[0].value;
        && there.itemName == here.itemName && there.stackable
        && !(inventoryViews[clickedId].canPlace && here.stackable)
      modifies this
      ensures (inventoryViews, action) ==
              HandleMovesResult(old(inventoryViews), clickedId, index, manipulation, click)
      ensures FollowsRules(old(inventoryViews), inventoryViews, clickedId, index, manipulation, click, action)
    {
      hide FollowsRules;
      ClickFollowsRules(inventoryViews, clickedId, index, manipulation, click);
      hide SetStack;
      var inventory := inventoryViews[clickedId];
      var there, here := inventory.stacks[index].value, inventoryViews[manipulation].stacks[0].value;
      SetStackSame(inventoryViews, manipulation, 0);
      SetStackSame(inventoryViews, clickedId, index);
      var quantity := Min(SaturatingSub(here.maxStack, here.quantity), there.quantity);
      if !inventory.takeExact && click.RightClick? {
        quantity := Min(quantity, UpperHalf(there.quantity));
      }
      if inventory.takeExact && quantity < there.quantity {
        return None;
      }
      Store(manipulation, 0, Some(here.(quantity := here.quantity + quantity)));
      if quantity > 0 && quantity == there.quantity {
        Store(clickedId, index, None);
      } else if quantity > 0 {
        Store(clickedId, index, Some(there.(quantity := there.quantity - quantity)));
      } else {
        assert here.(quantity := here.quantity + quantity) == here;
        return None;
      }
      return Some(InventoryAction(clickedId, index, manipulation, 0, quantity, false));
    }

    /** A click on a slot of a view. The source indexes the view without a check. */
    method HandleMoves(clickedId: ViewId, index: nat, manipulation: ViewId, click: ClickType)
      returns (action: Option<InventoryAction>)
      requires clickedId in inventoryViews && index < |inventoryViews[clickedId].stacks|
      requires clickedId != manipulation
      modifies this
      ensures (inventoryViews, action) ==
              HandleMovesResult(old(inventoryViews), clickedId, index, manipulation, click)
      ensures FollowsRules(old(inventoryViews), inventoryViews, clickedId, index, manipulation, click, action)
    {
      hide FollowsRules;
      ClickFollowsRules(inventoryViews, clickedId, index, manipulation, click);
      hide SetStack;
      var inventory := inventoryViews[clickedId];
      var clicked := inventory.stacks[index];
      if manipulation !in inventoryViews || inventoryViews[manipulation].stacks == [] {
        return None;
      }
      var carried := inventoryViews[manipulation].stacks[0];
      SetStackSame(inventoryViews, manipulation, 0);
      SetStackSame(inventoryViews, clickedId, index);
      if clicked.Some? && carried.Some? {
        action := CombineOrSwap(clickedId, index, manipulation, click);
      } else if carried.Some? && inventory.canPlace {
        var sourceQuantity := carried.value.quantity;
        var quantity := sourceQuantity;
        if click.RightClick? {
          quantity := Min(quantity, 1);
        }
        if quantity == sourceQuantity {
          Store(manipulation, 0, None);
          Store(clickedId, index, carried);
        } else {
          Store(manipulation, 0, Some(carried.value.(quantity := sourceQuantity - quantity)));
          Store(clickedId, index, Some(carried.value.(quantity := quantity)));
        }
        return Some(InventoryAction(manipulation, 0, clickedId, index, quantity, false));
      } else if clicked.Some? && inventory.canTake {
        var sourceQuantity := clicked.value.quantity;
        var quantity := sourceQuantity;
        if !inventory.takeExact && click.RightClick? {
          quantity := Min(quantity, UpperHalf(quantity));
        }
        if sourceQuantity == quantity {
          Store(manipulation, 0, clicked);
          Store(clickedId, index, None);
        } else {
          Store(manipulation, 0, Some(clicked.value.(quantity := quantity)));
          Store(clickedId, index, Some(clicked.value.(quantity := sourceQuantity - quantity)));
        }
        return Some(InventoryAction(clickedId, index, manipulation, 0, quantity, false));
      } else {
        return None;
      }
    }
  }

  // ----- the prediction against the rules --------------------------------------------------------------------------

  /** One click decides for what the rules ask. */
  lemma DecisionFollowsRules(inv: ClientInventory, clicked: MaybeStack, carried: MaybeStack, click: ClickType)
    ensures Decided(inv, clicked, carried, click)
  {
    hide Decided;
    if GoesOnto(inv, clicked, carried) {
      GoesOntoDecided(inv, clicked, carried, click);
    } else if ComesOnto(inv, clicked, carried) {
      ComesOntoDecided(inv, clicked, carried, click);
    } else {
      RestDecided(inv, clicked, carried, click);
    }
  }

  predicate Decided(inv: ClientInventory, clicked: MaybeStack, carried: MaybeStack, click: ClickType) {
    var d := Decide(inv, clicked, carried, click);
    var (clicked', carried') := Predicted(inv, clicked, carried, click);
    && (d.NoMove? <==> ComesToNothing(inv, click, clicked, carried))
    && (d.NoMove? ==> (clicked', carried') == (clicked, carried))
    && (d.Place? ==> d.count == QuantityOf(clicked') - QuantityOf(clicked))
    && (d.PickUp? ==> d.count == QuantityOf(carried') - QuantityOf(carried))
    && (d.Place? ==> GoesOnto(inv, clicked, carried) || GoesIntoEmptySlot(inv, clicked, carried))
    && (d.PickUp? ==> ComesOnto(inv, clicked, carried) || ComesIntoEmptyHand(inv, clicked, carried))
    && (d.Exchange? ==> Exchanges(inv, clicked, carried))
    && (!d.NoMove? ==> Moves(inv, click, clicked, carried, clicked', carried'))
  }

  lemma GoesOntoDecided(inv: ClientInventory, clicked: MaybeStack, carried: MaybeStack, click: ClickType)
    requires GoesOnto(inv, clicked, carried)
    ensures Decided(inv, clicked, carried, click)
  {
    hide AddsToCarried, FillsSlot, FillsHand, MayCome, UpperHalf;
  }

  lemma ComesOntoDecided(inv: ClientInventory, clicked: MaybeStack, carried: MaybeStack, click: ClickType)
    requires ComesOnto(inv, clicked, carried)
    ensures Decided(inv, clicked, carried, click)
  {
    hide AddsToClicked, FillsSlot, FillsHand;
  }

  lemma RestDecided(inv: ClientInventory, clicked: MaybeStack, carried: MaybeStack, click: ClickType)
    requires !GoesOnto(inv, clicked, carried) && !ComesOnto(inv, clicked, carried)
    ensures Decided(inv, clicked, carried, click)
  {
    hide AddsToCarried, AddsToClicked, MayCome;
  }

  /** What a click makes of the client's views, and the action it sends, is what the rules ask for. */
  lemma ClickFollowsRules(views: ClientViews, clicked: ViewId, index: nat, hand: ViewId, click: ClickType)
    requires clicked in views && index < |views[clicked].stacks| && clicked != hand
    ensures var (views', action) := HandleMovesResult(views, clicked, index, hand, click);
      FollowsRules(views, views', clicked, index, hand, click, action)
  {
    hide Decide, Predicted, Moves, ComesToNothing, ActionOf, ActionFor;
    if hand in views && views[hand].stacks != [] {
      var inv, there, here := views[clicked], views[clicked].stacks[index], views[hand].stacks[0];
      var (there', here') := Predicted(inv, there, here, click);
      DecisionFollowsRules(inv, there, here, click);
      DecidedAction(inv, there, here, click, clicked, index, hand);
      SetStackTwice(views, clicked, index, there', hand, here');
    }
  }

  lemma DecidedAction(
    inv: ClientInventory, clicked: MaybeStack, carried: MaybeStack, click: ClickType,
    view: ViewId, index: nat, hand: ViewId)
    requires Decided(inv, clicked, carried, click)
    ensures var d := Decide(inv, clicked, carried, click);
      var (clicked', carried') := Predicted(inv, clicked, carried, click);
      && (d.NoMove? <==> ActionFor(d, view, index, hand).None?)
      && (!d.NoMove? ==>
            ActionFor(d, view, index, hand) == ActionOf(inv, clicked, carried, clicked', carried', view, index, hand))
  {
    hide Decide, Predicted, Moves, ComesToNothing;
  }

  lemma SetStackTwice(
    views: ClientViews, clicked: ViewId, index: nat, there: MaybeStack, hand: ViewId, here: MaybeStack)
    requires clicked in views && index < |views[clicked].stacks| && clicked != hand
    requires hand in views && views[hand].stacks != []
    ensures var views' := SetStack(SetStack(views, hand, 0, here), clicked, index, there);
      && OthersKept(views, views', clicked, index, hand)
      && views'[clicked].stacks[index] == there && views'[hand].stacks[0] == here
  {
  }

  // ----- the prediction against the server -------------------------------------------------------------------------

  /** The stack an action moves. */
  function Moved(d: Decision, clicked: MaybeStack, carried: MaybeStack): MaybeStack {
    if d.Place? then carried else if d.PickUp? then clicked else None
  }

  /** The server's counted move leaves the two slots as the client predicted exactly when the moved stack stacks. */
  lemma MovePredicted(inv: ClientInventory, clicked: MaybeStack, carried: MaybeStack, click: ClickType)
    requires WellFormedSlot(clicked) && WellFormedSlot(carried)
    ensures var d := Decide(inv, clicked, carried, click);
      var (clicked', carried') := Predicted(inv, clicked, carried, click);
      && (d.Place? ==> (MovedTo(carried, clicked, d.count) == (carried', clicked') <==> carried.value.stackable))
      && (d.PickUp? ==> (MovedTo(clicked, carried, d.count) == (clicked', carried') <==> clicked.value.stackable))
      && (d.Place? || d.Exchange? ==> inv.canPlace)
      && (d.PickUp? || d.Exchange? ==> inv.canTake)
  {
  }

  /** The client's copy of a view is what the server would show for it. */
  predicate InSync(views: ClientViews, st: Stores, v: View)
    requires ViewFits(st, v)
  {
    && v.id in views
    && Peek(st, v) == Some(views[v.id].stacks)
    && views[v.id].canPlace == v.canPlace && views[v.id].canTake == v.canTake
    && views[v.id].takeExact == v.takeExact
    && |views[v.id].stacks| == Size(v.dimensions)
  }

  lemma PeekIsHeld(st: Stores, v: View, k: nat)
    requires ViewFits(st, v) && Peek(st, v).Some? && k < |Peek(st, v).value|
    ensures Present(st, v, k) && Held(st, v, k) == Peek(st, v).value[k]
  {
  }

  lemma HeldIsPeek(st: Stores, v: View, stacks: seq<MaybeStack>)
    requires ViewFits(st, v) && |stacks| == Size(v.dimensions) > 0
    requires forall k :: 0 <= k < |stacks| ==> Present(st, v, k) && Held(st, v, k) == stacks[k]
    ensures Peek(st, v) == Some(stacks)
  {
    assert Present(st, v, 0);
    var shown := Peek(st, v).value;
    forall k | 0 <= k < |stacks| ensures shown[k] == stacks[k] {
      PeekIsHeld(st, v, k);
    }
    assert shown == stacks;
  }

  /** A counted move between different inventories, as their views show it. */
  lemma MovePeek(st: Stores, src: View, i: nat, dst: View, j: nat, count: u32)
    requires ViewFits(st, src) && ViewFits(st, dst) && !SameBacking(src, dst)
    requires i < Size(src.dimensions) && Peek(st, src).Some? && |Peek(st, src).value| == Size(src.dimensions)
    requires j < Size(dst.dimensions) && Peek(st, dst).Some? && |Peek(st, dst).value| == Size(dst.dimensions)
    requires WellFormedSlot(Peek(st, src).value[i]) && WellFormedSlot(Peek(st, dst).value[j])
    ensures var from, to := Peek(st, src).value, Peek(st, dst).value;
      var p := Move(st, src, i, dst, j, count);
      var (from', to') := MovedTo(from[i], to[j], count);
      && p.lost == [] && ViewFits(p.stores, src) && ViewFits(p.stores, dst)
      && Peek(p.stores, src) == Some(from[i := from'])
      && Peek(p.stores, dst) == Some(to[j := to'])
  {
    hide Peek, Move, ReadCell, MovedTo;
    var from, to := Peek(st, src).value, Peek(st, dst).value;
    var p := Move(st, src, i, dst, j, count);
    var (from', to') := MovedTo(from[i], to[j], count);
    PeekIsHeld(st, src, i);
    PeekIsHeld(st, dst, j);
    forall k | 0 <= k < |from|
      ensures ViewFits(p.stores, src) && Present(p.stores, src, k) && Held(p.stores, src, k) == from[i := from'][k]
    {
      PeekIsHeld(st, src, k);
      MoveExact(st, src, i, dst, j, count, src, k);
      MoveKeepsAccess(st, src, i, dst, j, count, src, k);
    }
    forall k | 0 <= k < |to|
      ensures ViewFits(p.stores, dst) && Present(p.stores, dst, k) && Held(p.stores, dst, k) == to[j := to'][k]
    {
      PeekIsHeld(st, dst, k);
      MoveExact(st, src, i, dst, j, count, dst, k);
      MoveKeepsAccess(st, src, i, dst, j, count, dst, k);
    }
    MoveExact(st, src, i, dst, j, count, src, i);
    MoveKeepsAccess(st, src, i, dst, j, count, src, i);
    MoveKeepsAccess(st, src, i, dst, j, count, dst, j);
    HeldIsPeek(p.stores, src, from[i := from']);
    HeldIsPeek(p.stores, dst, to[j := to']);
  }

  /** A swap between different inventories, as their views show it. */
  lemma SwapPeek(st: Stores, src: View, i: nat, dst: View, j: nat)
    requires ViewFits(st, src) && ViewFits(st, dst) && !SameBacking(src, dst)
    requires i < Size(src.dimensions) && Peek(st, src).Some? && |Peek(st, src).value| == Size(src.dimensions)
    requires j < Size(dst.dimensions) && Peek(st, dst).Some? && |Peek(st, dst).value| == Size(dst.dimensions)
    requires StackNamed(Peek(st, src).value[i]) && StackNamed(Peek(st, dst).value[j])
    ensures var from, to := Peek(st, src).value, Peek(st, dst).value;
      var p := Swap(st, src, i, dst, j);
      && p.lost == [] && ViewFits(p.stores, src) && ViewFits(p.stores, dst)
      && Peek(p.stores, src) == Some(from[i := to[j]])
      && Peek(p.stores, dst) == Some(to[j := from[i]])
  {
    hide Peek, Swap, ReadCell;
    var from, to := Peek(st, src).value, Peek(st, dst).value;
    var p := Swap(st, src, i, dst, j);
    PeekIsHeld(st, src, i);
    PeekIsHeld(st, dst, j);
    forall k | 0 <= k < |from|
      ensures ViewFits(p.stores, src) && Present(p.stores, src, k) && Held(p.stores, src, k) == from[i := to[j]][k]
    {
      PeekIsHeld(st, src, k);
      SwapExact(st, src, i, dst, j, src, k);
      SwapKeepsAccess(st, src, i, dst, j, src, k);
    }
    forall k | 0 <= k < |to|
      ensures ViewFits(p.stores, dst) && Present(p.stores, dst, k) && Held(p.stores, dst, k) == to[j := from[i]][k]
    {
      PeekIsHeld(st, dst, k);
      SwapExact(st, src, i, dst, j, dst, k);
      SwapKeepsAccess(st, src, i, dst, j, dst, k);
    }
    SwapExact(st, src, i, dst, j, src, i);
    SwapKeepsAccess(st, src, i, dst, j, src, i);
    SwapKeepsAccess(st, src, i, dst, j, dst, j);
    HeldIsPeek(p.stores, src, from[i := to[j]]);
    HeldIsPeek(p.stores, dst, to[j := from[i]]);
  }

  /** The result of a click, on the client and on the server. */
  predicate ClickAgrees(views: ClientViews, st: Stores, clicked: View, manipulation: View)
    requires ViewFits(st, clicked) && ViewFits(st, manipulation)
  {
    && clicked.id in views && manipulation.id in views
    && Peek(st, clicked) == Some(views[clicked.id].stacks)
    && Peek(st, manipulation) == Some(views[manipulation.id].stacks)
  }

  /** Whenever a click makes the client send an action, the server performing it from the same state loses nothing,
      and ends with both views exactly as the client already shows them if and only if the action is a swap or the
      stack it moves can be split (the server does not move counted parts of a stack that does not stack). */
  lemma PredictionMatchesServer(
    views: ClientViews, st: Stores, clicked: View, index: nat, manipulation: View, click: ClickType)
    requires ViewFits(st, clicked) && ViewFits(st, manipulation)
    requires InSync(views, st, clicked) && InSync(views, st, manipulation)
    requires clicked.id != manipulation.id && !SameBacking(clicked, manipulation)
    requires index < Size(clicked.dimensions) && Size(manipulation.dimensions) > 0
    requires manipulation.canPlace && manipulation.canTake
    requires WellFormedSlot(views[clicked.id].stacks[index]) && WellFormedSlot(views[manipulation.id].stacks[0])
    ensures var (views', action) := HandleMovesResult(views, clicked.id, index, manipulation.id, click);
      var there, here := views[clicked.id].stacks[index], views[manipulation.id].stacks[0];
      var moved := Moved(Decide(views[clicked.id], there, here, click), there, here);
      action.Some? ==>
        var src := if action.value.sourceView == clicked.id then clicked else manipulation;
        var dst := if action.value.destinationView == clicked.id then clicked else manipulation;
        var p := Perform(st, src, dst, action.value);
        && src.id == action.value.sourceView && dst.id == action.value.destinationView && src != dst
        && p.lost == [] && ViewFits(p.stores, clicked) && ViewFits(p.stores, manipulation)
        && (ClickAgrees(views', p.stores, clicked, manipulation) <==>
              action.value.swap || (moved.Some? && moved.value.stackable))
  {
    hide Swap, Move, Peek, ReadCell, MovedTo, Decide, Predicted;
    var inv := views[clicked.id];
    var there, here := inv.stacks[index], views[manipulation.id].stacks[0];
    var (there', here') := Predicted(inv, there, here, click);
    var d := Decide(inv, there, here, click);
    MovePredicted(inv, there, here, click);
    DecisionShape(inv, there, here, click);
    var (views', action) := HandleMovesResult(views, clicked.id, index, manipulation.id, click);
    assert views'[clicked.id].stacks == inv.stacks[index := there'];
    assert views'[manipulation.id].stacks == views[manipulation.id].stacks[0 := here'];
    match d
    case NoMove =>
    case Exchange => SwapPeek(st, manipulation, 0, clicked, index);
    case Place(count) =>
      MovePeek(st, manipulation, 0, clicked, index, count);
      SlotsDetermine(views[manipulation.id].stacks, 0, MovedTo(here, there, count).0, here');
      SlotsDetermine(inv.stacks, index, MovedTo(here, there, count).1, there');
    case PickUp(count) =>
      MovePeek(st, clicked, index, manipulation, 0, count);
      SlotsDetermine(inv.stacks, index, MovedTo(there, here, count).0, there');
      SlotsDetermine(views[manipulation.id].stacks, 0, MovedTo(there, here, count).1, here');
  }

  lemma DecisionShape(inv: ClientInventory, clicked: MaybeStack, carried: MaybeStack, click: ClickType)
    ensures var d := Decide(inv, clicked, carried, click);
      && (d.Place? ==> carried.Some?) && (d.PickUp? ==> clicked.Some?)
      && (d.Exchange? ==> Predicted(inv, clicked, carried, click) == (carried, clicked))
  {
  }

  lemma SlotsDetermine(slots: seq<MaybeStack>, i: nat, a: MaybeStack, b: MaybeStack)
    requires i < |slots|
    ensures slots[i := a] == slots[i := b] <==> a == b
  {
    assert slots[i := a][i] == a && slots[i := b][i] == b;
  }

  /** The mismatch: a tool carried over an empty slot. The client shows it placed; the server leaves it in hand. */
  lemma ToolPlacementMispredicted()
    ensures var tool := ItemStack("pick", 100, 0, false);
      var inv := ClientInventory(Dimensions(1, 1), [None], true, true, false);
      && WellFormed(tool)
      && Decide(inv, None, Some(tool), LeftClick) == Place(100)
      && Predicted(inv, None, Some(tool), LeftClick) == (Some(tool), None)
      && MovedTo(Some(tool), None, 100) == (Some(tool), None)
  {
  }
}
