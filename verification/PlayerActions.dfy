/** Inventory actions of a player (cuberef_server/src/game_state/player.rs). */
module PlayerActions {
  import opened Wrappers
  import opened Items
  import opened Inventories
  import opened InventoryViews
  import opened ViewClearing
  import opened InventoryAccess

  datatype InventoryAction = InventoryAction(
    sourceView: ViewId, sourceSlot: nat, destinationView: ViewId, destinationSlot: nat, count: u32, swap: bool)

  datatype Outcome = Done | NotPermitted | ViewNotFound | Failed(error: ViewError) | UnexpectedLeftover

  /** The effect of an action: the stores afterwards, how it ended, and the stacks that are in no store any more. */
  datatype Performed = Performed(stores: Stores, outcome: Outcome, lost: seq<ItemStack>)

  function InHand(c: Content): seq<ItemStack> { if c.Some? then [c.value.borrowedStack] else [] }

  function Ending(put: Result<Content, ViewError>): Outcome { if put.Ok? then Done else Failed(put.error) }

  /** What is in hand after putting a stack somewhere: all of it when that failed. */
  function Remaining(put: Result<Content, ViewError>, hand: Content): Content { if put.Ok? then put.value else hand }

  /** Putting back a stack in the second half of a swap: nothing may be left over. */
  function SwapPut(st: Stores, v: View, slot: nat, hand: Content, other: Content): Performed
    requires ViewFits(st, v)
  {
    if hand.None? then Performed(st, Done, [])
    else
      var (st', left) := PutIntoView(st, v, slot, hand.value);
      if left.Err? then Performed(st', Failed(left.error), InHand(hand) + InHand(other))
      else if left.value.Some? then Performed(st', UnexpectedLeftover, InHand(left.value) + InHand(other))
      else Performed(st', Done, [])
  }

  lemma TakeFits(st: Stores, v: View, slot: nat, count: Option<u32>, w: View)
    requires ViewFits(st, v) && ViewFits(st, w)
    ensures var st' := TakeFromView(st, v, slot, count).0;
      ViewFits(st', w) && forall i :: Access(st', w, i) == Access(st, w, i)
  {
    if Present(st, v, slot) {
      var cell := ReadCell(st, v, slot);
      var from := if cell.Some? then cell.value.borrowsFrom else NotBorrowed;
      forall i ensures Access(TakeFromView(st, v, slot, count).0, w, i) == Access(st, w, i) {
        ReadAfterWrite(st, v, slot, Lend(Take(StackOf(cell), count).0, from), w, i);
      }
    }
  }

  lemma PutFits(st: Stores, v: View, slot: nat, stack: BorrowedStack, w: View)
    requires ViewFits(st, v) && ViewFits(st, w)
    ensures var st' := PutIntoView(st, v, slot, stack).0;
      ViewFits(st', w) && forall i :: Access(st', w, i) == Access(st, w, i)
  {
    if Present(st, v, slot) {
      var cell := ReadCell(st, v, slot);
      var from := if cell.Some? then cell.value.borrowsFrom.Or(stack.borrowsFrom) else stack.borrowsFrom;
      forall i ensures Access(PutIntoView(st, v, slot, stack).0, w, i) == Access(st, w, i) {
        ReadAfterWrite(st, v, slot, Lend(Merge(StackOf(cell), Some(stack.borrowedStack)).0, from), w, i);
      }
    }
  }

  function Swap(st: Stores, src: View, i: nat, dst: View, j: nat): Performed
    requires ViewFits(st, src) && ViewFits(st, dst)
  {
    TakeFits(st, src, i, None, src);
    TakeFits(st, src, i, None, dst);
    var (st1, taken) := TakeFromView(st, src, i, None);
    if taken.Err? then Performed(st1, Failed(taken.error), [])
    else
      TakeFits(st1, dst, j, None, src);
      TakeFits(st1, dst, j, None, dst);
      var (st2, other) := TakeFromView(st1, dst, j, None);
      if other.Err? then Performed(st2, Failed(other.error), InHand(taken.value))
      else
        var first := SwapPut(st2, dst, j, taken.value, other.value);
        if first.outcome != Done then first
        else
          if taken.value.Some? then
            PutFits(st2, dst, j, taken.value.value, src);
            SwapPut(first.stores, src, i, other.value, None)
          else SwapPut(st2, src, i, other.value, None)
  }

  function Move(st: Stores, src: View, i: nat, dst: View, j: nat, count: u32): Performed
    requires ViewFits(st, src) && ViewFits(st, dst)
  {
    TakeFits(st, src, i, Some(count), src);
    TakeFits(st, src, i, Some(count), dst);
    var (st1, taken) := TakeFromView(st, src, i, Some(count));
    if taken.Err? then Performed(st1, Failed(taken.error), [])
    else if taken.value.None? then Performed(st1, Done, [])
    else
      PutFits(st1, dst, j, taken.value.value, src);
      var (st2, left) := PutIntoView(st1, dst, j, taken.value.value);
      if left.Err? then Performed(st2, Failed(left.error), InHand(taken.value))
      else if left.value.None? then Performed(st2, Done, [])
      else
        var (st3, still) := PutIntoView(st2, src, i, left.value.value);
        Performed(st3, Ending(still), InHand(Remaining(still, left.value)))
  }

  function Perform(st: Stores, src: View, dst: View, a: InventoryAction): Performed
    requires ViewFits(st, src) && ViewFits(st, dst)
  {
    if !(src.canTake && dst.canPlace) then Performed(st, NotPermitted, [])
    else if a.swap then Swap(st, src, a.sourceSlot, dst, a.destinationSlot)
    else Move(st, src, a.sourceSlot, dst, a.destinationSlot, a.count)
  }

  /** An action is refused exactly if nothing may be taken from the one view or placed into the other, and then it
      changes nothing. */
  lemma RefusedExactly(st: Stores, src: View, dst: View, a: InventoryAction)
    requires ViewFits(st, src) && ViewFits(st, dst)
    ensures var p := Perform(st, src, dst, a);
      && (p.outcome == NotPermitted <==> !src.canTake || !dst.canPlace)
      && (p.outcome == NotPermitted ==> p.stores == st && p.lost == [])
  {
    hide TakeFromView, PutIntoView, ViewFits;
  }

  // ----- the ledger ------------------------------------------------------------------------------------------------

  lemma InHandTotal(c: Content, item: string)
    ensures LostTotal(InHand(c), item) == Count(StackOf(c), item)
  {
    if c.Some? { assert InHand(c)[1..] == []; }
  }

  lemma SwapPutLedger(st: Stores, v: View, slot: nat, hand: Content, other: Content, item: string)
    requires ViewFits(st, v) && item != ""
    ensures var p := SwapPut(st, v, slot, hand, other);
      TotalItems(p.stores, item) + LostTotal(p.lost, item) ==
        TotalItems(st, item) + Count(StackOf(hand), item)
          + if p.outcome == Done then 0 else Count(StackOf(other), item)
  {
    if hand.Some? {
      PutConserves(st, v, slot, hand.value, item);
      var (st', left) := PutIntoView(st, v, slot, hand.value);
      InHandTotal(hand, item);
      InHandTotal(other, item);
      LostTotalConcat(InHand(hand), InHand(other), item);
      if left.Ok? {
        InHandTotal(left.value, item);
        LostTotalConcat(InHand(left.value), InHand(other), item);
      }
    }
  }

  /** Whatever the action and the stores: every item is either still in the stores or in the list of lost stacks. */
  lemma ActionLedger(st: Stores, src: View, dst: View, a: InventoryAction, item: string)
    requires ViewFits(st, src) && ViewFits(st, dst) && item != ""
    ensures var p := Perform(st, src, dst, a);
      TotalItems(p.stores, item) + LostTotal(p.lost, item) == TotalItems(st, item)
  {
    if src.canTake && dst.canPlace {
      if a.swap { SwapLedger(st, src, a.sourceSlot, dst, a.destinationSlot, item); }
      else { MoveLedger(st, src, a.sourceSlot, dst, a.destinationSlot, a.count, item); }
    }
  }

  lemma SwapLedger(st: Stores, src: View, i: nat, dst: View, j: nat, item: string)
    requires ViewFits(st, src) && ViewFits(st, dst) && item != ""
    ensures var p := Swap(st, src, i, dst, j);
      TotalItems(p.stores, item) + LostTotal(p.lost, item) == TotalItems(st, item)
  {
    TakeFits(st, src, i, None, dst);
    TakeFits(st, src, i, None, src);
    TakeConserves(st, src, i, None, item);
    var (st1, taken) := TakeFromView(st, src, i, None);
    if taken.Ok? {
      TakeFits(st1, dst, j, None, src);
      TakeFits(st1, dst, j, None, dst);
      TakeConserves(st1, dst, j, None, item);
      InHandTotal(taken.value, item);
      var (st2, other) := TakeFromView(st1, dst, j, None);
      if other.Ok? {
        SwapPutLedger(st2, dst, j, taken.value, other.value, item);
        var first := SwapPut(st2, dst, j, taken.value, other.value);
        if first.outcome == Done {
          if taken.value.Some? { PutFits(st2, dst, j, taken.value.value, src); }
          SwapPutLedger(first.stores, src, i, other.value, None, item);
        }
      }
    }
  }

  lemma MoveLedger(st: Stores, src: View, i: nat, dst: View, j: nat, count: u32, item: string)
    requires ViewFits(st, src) && ViewFits(st, dst) && item != ""
    ensures var p := Move(st, src, i, dst, j, count);
      TotalItems(p.stores, item) + LostTotal(p.lost, item) == TotalItems(st, item)
  {
    TakeFits(st, src, i, Some(count), dst);
    TakeFits(st, src, i, Some(count), src);
    TakeConserves(st, src, i, Some(count), item);
    var (st1, taken) := TakeFromView(st, src, i, Some(count));
    if taken.Ok? && taken.value.Some? {
      PutFits(st1, dst, j, taken.value.value, src);
      PutConserves(st1, dst, j, taken.value.value, item);
      InHandTotal(taken.value, item);
      var (st2, left) := PutIntoView(st1, dst, j, taken.value.value);
      if left.Ok? && left.value.Some? {
        PutConserves(st2, src, i, left.value.value, item);
        InHandTotal(left.value, item);
        var (st3, still) := PutIntoView(st2, src, i, left.value.value);
        InHandTotal(Remaining(still, left.value), item);
      }
    }
  }

  // ----- exactly when an action loses items ------------------------------------------------------------------------

  /** What a view shows in a slot; nothing where there is no slot. */
  function Held(st: Stores, v: View, slot: nat): MaybeStack
    requires ViewFits(st, v)
  {
    if Present(st, v, slot) then StackOf(ReadCell(st, v, slot)) else None
  }

  predicate SameSlot(v: View, i: nat, w: View, j: nat) { SameBacking(v, w) && i == j }

  /** The check a caller can make before the action: whatever is picked up finds a slot where it is to go. A counted
      move survives a destination whose block has no inventory, since the stack then goes back; a swap does not. */
  predicate Safe(st: Stores, src: View, dst: View, a: InventoryAction)
    requires ViewFits(st, src) && ViewFits(st, dst)
  {
    var i, j := a.sourceSlot, a.destinationSlot;
    && src.canTake && dst.canPlace && Access(st, src, i).Ok? ==>
      if a.swap then
        && (Held(st, src, i).Some? ==> Present(st, dst, j))
        && (Held(st, dst, j).Some? ==> Present(st, src, i))
      else
        Take(Held(st, src, i), Some(a.count)).1.Some? ==> Access(st, dst, j).Ok?
  }

  predicate StackNamed(s: MaybeStack) { s.Some? ==> s.value.itemName != "" }

  /** Two views of one existing slot show the same. */
  lemma SameSlotHeld(st: Stores, v: View, i: nat, w: View, j: nat)
    requires ViewFits(st, v) && ViewFits(st, w) && SameSlot(v, i, w, j) && Present(st, v, i)
    ensures Present(st, w, j) && Held(st, v, i) == Held(st, w, j)
  {
  }

  /** Every view's slots after a take: the slot taken from holds the rest, all others are as before. */
  lemma HeldAfterTake(st: Stores, v: View, i: nat, count: Option<u32>, w: View, j: nat)
    requires ViewFits(st, v) && ViewFits(st, w) && Access(st, v, i).Ok? && StackNamed(Held(st, v, i))
    ensures var (st', taken) := TakeFromView(st, v, i, count);
      && ViewFits(st', w) && taken.Ok?
      && StackOf(taken.value) == Take(Held(st, v, i), count).1
      && Held(st', w, j) ==
           if SameSlot(v, i, w, j) && Present(st, v, i) then Take(Held(st, v, i), count).0 else Held(st, w, j)
  {
    TakeFits(st, v, i, count, w);
    if Present(st, v, i) {
      var cell := ReadCell(st, v, i);
      var from := if cell.Some? then cell.value.borrowsFrom else NotBorrowed;
      ReadAfterWrite(st, v, i, Lend(Take(StackOf(cell), count).0, from), w, j);
      if SameSlot(v, i, w, j) { SameSlotHeld(st, v, i, w, j); }
    }
  }

  /** Every view's slots after a put: the slot put into holds the merged stack, all others are as before. */
  lemma HeldAfterPut(st: Stores, v: View, i: nat, stack: BorrowedStack, w: View, j: nat)
    requires ViewFits(st, v) && ViewFits(st, w) && Access(st, v, i).Ok?
    requires StackNamed(Held(st, v, i)) && stack.borrowedStack.itemName != ""
    ensures var (st', left) := PutIntoView(st, v, i, stack);
      && ViewFits(st', w) && left.Ok?
      && (!Present(st, v, i) ==> left.value == Some(stack))
      && (Present(st, v, i) ==> StackOf(left.value) == Merge(Held(st, v, i), Some(stack.borrowedStack)).1)
      && Held(st', w, j) ==
           if SameSlot(v, i, w, j) && Present(st, v, i) then Merge(Held(st, v, i), Some(stack.borrowedStack)).0
           else Held(st, w, j)
  {
    PutFits(st, v, i, stack, w);
    if Present(st, v, i) {
      var cell := ReadCell(st, v, i);
      var from := if cell.Some? then cell.value.borrowsFrom.Or(stack.borrowsFrom) else stack.borrowsFrom;
      ReadAfterWrite(st, v, i, Lend(Merge(StackOf(cell), Some(stack.borrowedStack)).0, from), w, j);
      if SameSlot(v, i, w, j) { SameSlotHeld(st, v, i, w, j); }
    }
  }

  lemma PutRefused(st: Stores, v: View, i: nat, stack: BorrowedStack)
    requires ViewFits(st, v) && Access(st, v, i).Err?
    ensures PutIntoView(st, v, i, stack) == (st, Err(Access(st, v, i).error))
  {
  }

  /** What a counted move leaves in the slot it takes from and in the one it puts into, these being different. */
  function MovedTo(from: MaybeStack, to: MaybeStack, count: u32): (MaybeStack, MaybeStack) {
    var (rest, taken) := Take(from, Some(count));
    var (merged, left) := Merge(to, taken);
    (Merge(rest, left).0, merged)
  }

  /** A counted move, slot by slot: `k` of view `w` is any slot at all. Nothing is lost exactly when it is safe, and
      then the two slots hold what a merge of the split-off stack makes of them and all other slots are untouched; if
      the destination's block has no inventory, or nothing is taken, all slots are. Otherwise what was taken is lost. */
  lemma MoveExact(st: Stores, src: View, i: nat, dst: View, j: nat, count: u32, w: View, k: nat)
    requires ViewFits(st, src) && ViewFits(st, dst) && ViewFits(st, w) && Access(st, src, i).Ok?
    requires WellFormedSlot(Held(st, src, i)) && WellFormedSlot(Held(st, dst, j))
    ensures var p := Move(st, src, i, dst, j, count);
      var safe := Take(Held(st, src, i), Some(count)).1.Some? ==> Access(st, dst, j).Ok?;
      && (p.lost == [] <==> safe)
      && (!safe ==> p.lost == [Take(Held(st, src, i), Some(count)).1.value])
      && (p.outcome == Done <==> safe)
      && ViewFits(p.stores, w)
      && (safe && !Present(st, dst, j) ==> Held(p.stores, w, k) == Held(st, w, k))
      && (safe && Present(st, dst, j) ==>
            Held(p.stores, w, k) ==
              if SameSlot(src, i, dst, j) then Held(st, w, k)
              else if Present(st, src, i) && SameSlot(src, i, w, k) then
                MovedTo(Held(st, src, i), Held(st, dst, j), count).0
              else if SameSlot(dst, j, w, k) then MovedTo(Held(st, src, i), Held(st, dst, j), count).1
              else Held(st, w, k))
  {
    hide TakeFromView, PutIntoView, ViewFits, Access, ReadCell;
    var mine, theirs := Held(st, src, i), Held(st, dst, j);
    HeldAfterTake(st, src, i, Some(count), src, i);
    HeldAfterTake(st, src, i, Some(count), dst, j);
    HeldAfterTake(st, src, i, Some(count), w, k);
    TakeFits(st, src, i, Some(count), src);
    TakeFits(st, src, i, Some(count), dst);
    TakeFits(st, src, i, Some(count), w);
    TakeExact(mine, Some(count));
    TakeThenMergeRestores(mine, Some(count));
    var (st1, taken) := TakeFromView(st, src, i, Some(count));
    if Present(st, src, i) {
      if SameSlot(src, i, dst, j) { SameSlotHeld(st, src, i, dst, j); }
      if SameSlot(src, i, w, k) { SameSlotHeld(st, src, i, w, k); }
    }
    if Present(st, dst, j) && SameSlot(dst, j, w, k) { SameSlotHeld(st, dst, j, w, k); }
    if taken.value.Some? {
      var stack := taken.value.value;
      if Access(st, dst, j).Ok? {
        TakeThenMergeBack(mine, Some(count), StackOf(taken.value));
        HeldAfterPut(st1, dst, j, stack, src, i);
        HeldAfterPut(st1, dst, j, stack, w, k);
        PutFits(st1, dst, j, stack, src);
        PutFits(st1, dst, j, stack, w);
        var (st2, left) := PutIntoView(st1, dst, j, stack);
        MergeExact(Held(st1, dst, j), Some(stack.borrowedStack));
        TakeThenMergeBack(mine, Some(count), StackOf(left.value));
        if left.value.Some? { HeldAfterPut(st2, src, i, left.value.value, w, k); }
      } else {
        PutRefused(st1, dst, j, stack);
      }
    }
  }

  /** No action makes a slot appear or disappear. */
  lemma MoveKeepsAccess(st: Stores, src: View, i: nat, dst: View, j: nat, count: u32, w: View, k: nat)
    requires ViewFits(st, src) && ViewFits(st, dst) && ViewFits(st, w)
    ensures var st' := Move(st, src, i, dst, j, count).stores;
      ViewFits(st', w) && Access(st', w, k) == Access(st, w, k)
  {
    hide TakeFromView, PutIntoView, ViewFits, Access;
    TakeFits(st, src, i, Some(count), src);
    TakeFits(st, src, i, Some(count), dst);
    TakeFits(st, src, i, Some(count), w);
    var (st1, taken) := TakeFromView(st, src, i, Some(count));
    if taken.Ok? && taken.value.Some? {
      PutFits(st1, dst, j, taken.value.value, src);
      PutFits(st1, dst, j, taken.value.value, w);
      var (st2, left) := PutIntoView(st1, dst, j, taken.value.value);
      if left.Ok? && left.value.Some? { PutFits(st2, src, i, left.value.value, w); }
    }
  }

  lemma SwapPutKeepsAccess(st: Stores, v: View, slot: nat, hand: Content, other: Content, w: View, k: nat)
    requires ViewFits(st, v) && ViewFits(st, w)
    ensures var st' := SwapPut(st, v, slot, hand, other).stores;
      ViewFits(st', w) && Access(st', w, k) == Access(st, w, k)
  {
    if hand.Some? { PutFits(st, v, slot, hand.value, w); }
  }

  lemma SwapKeepsAccess(st: Stores, src: View, i: nat, dst: View, j: nat, w: View, k: nat)
    requires ViewFits(st, src) && ViewFits(st, dst) && ViewFits(st, w)
    ensures var st' := Swap(st, src, i, dst, j).stores;
      ViewFits(st', w) && Access(st', w, k) == Access(st, w, k)
  {
    hide TakeFromView, PutIntoView, ViewFits, Access;
    TakeFits(st, src, i, None, src);
    TakeFits(st, src, i, None, dst);
    TakeFits(st, src, i, None, w);
    var (st1, taken) := TakeFromView(st, src, i, None);
    if taken.Ok? {
      TakeFits(st1, dst, j, None, src);
      TakeFits(st1, dst, j, None, dst);
      TakeFits(st1, dst, j, None, w);
      var (st2, other) := TakeFromView(st1, dst, j, None);
      if other.Ok? {
        SwapPutKeepsAccess(st2, dst, j, taken.value, other.value, src, i);
        SwapPutKeepsAccess(st2, dst, j, taken.value, other.value, w, k);
        var first := SwapPut(st2, dst, j, taken.value, other.value);
        SwapPutKeepsAccess(first.stores, src, i, other.value, None, w, k);
      }
    }
  }

  lemma TakeRefused(st: Stores, v: View, i: nat, count: Option<u32>)
    requires ViewFits(st, v) && Access(st, v, i).Err?
    ensures TakeFromView(st, v, i, count) == (st, Err(Access(st, v, i).error))
  {
  }

  /** A swap, slot by slot: `k` of view `w` is any slot at all. Nothing is lost exactly when it is safe; a safe swap
      whose slots can both be accessed exchanges their contents and touches nothing else; an unsafe one loses the stack
      that has no slot to go to. */
  lemma SwapExact(st: Stores, src: View, i: nat, dst: View, j: nat, w: View, k: nat)
    requires ViewFits(st, src) && ViewFits(st, dst) && ViewFits(st, w) && Access(st, src, i).Ok?
    requires StackNamed(Held(st, src, i)) && StackNamed(Held(st, dst, j))
    ensures var p := Swap(st, src, i, dst, j);
      var mine, theirs := Held(st, src, i), Held(st, dst, j);
      var safe := (mine.Some? ==> Present(st, dst, j)) && (theirs.Some? ==> Present(st, src, i));
      && (p.lost == [] <==> safe)
      && (!safe ==> p.lost == [if mine.Some? && !Present(st, dst, j) then mine.value else theirs.value])
      && (p.outcome == Done <==> safe && Access(st, dst, j).Ok?)
      && (p.outcome == Done ==>
            && ViewFits(p.stores, w)
            && Held(p.stores, w, k) ==
                 if Present(st, src, i) && SameSlot(src, i, w, k) then theirs
                 else if Present(st, dst, j) && SameSlot(dst, j, w, k) then mine
                 else Held(st, w, k))
  {
    hide TakeFromView, PutIntoView, ViewFits, Access, ReadCell;
    var mine, theirs := Held(st, src, i), Held(st, dst, j);
    HeldAfterTake(st, src, i, None, src, i);
    HeldAfterTake(st, src, i, None, dst, j);
    HeldAfterTake(st, src, i, None, w, k);
    TakeFits(st, src, i, None, src);
    TakeFits(st, src, i, None, dst);
    TakeFits(st, src, i, None, w);
    if Present(st, src, i) {
      if SameSlot(src, i, dst, j) { SameSlotHeld(st, src, i, dst, j); }
      if SameSlot(src, i, w, k) { SameSlotHeld(st, src, i, w, k); }
    }
    if Present(st, dst, j) && SameSlot(dst, j, w, k) { SameSlotHeld(st, dst, j, w, k); }
    var (st1, taken) := TakeFromView(st, src, i, None);
    if Access(st, dst, j).Err? {
      TakeRefused(st1, dst, j, None);
    } else {
      HeldAfterTake(st1, dst, j, None, src, i);
      HeldAfterTake(st1, dst, j, None, dst, j);
      HeldAfterTake(st1, dst, j, None, w, k);
      TakeFits(st1, dst, j, None, src);
      TakeFits(st1, dst, j, None, dst);
      TakeFits(st1, dst, j, None, w);
      var (st2, other) := TakeFromView(st1, dst, j, None);
      if taken.value.Some? {
        HeldAfterPut(st2, dst, j, taken.value.value, src, i);
        HeldAfterPut(st2, dst, j, taken.value.value, w, k);
        PutFits(st2, dst, j, taken.value.value, src);
        PutFits(st2, dst, j, taken.value.value, w);
      }
      var first := SwapPut(st2, dst, j, taken.value, other.value);
      if first.outcome == Done && other.value.Some? {
        HeldAfterPut(first.stores, src, i, other.value.value, w, k);
      }
    }
  }

  predicate HasItems(s: MaybeStack) { s.Some? && s.value.quantity > 0 }

  /** The check for items rather than stacks: whatever items are picked up find a slot where they are to go. */
  predicate SafeForItems(st: Stores, src: View, dst: View, a: InventoryAction)
    requires ViewFits(st, src) && ViewFits(st, dst)
  {
    var i, j := a.sourceSlot, a.destinationSlot;
    && src.canTake && dst.canPlace && Access(st, src, i).Ok? ==>
      if a.swap then
        && (HasItems(Held(st, src, i)) ==> Present(st, dst, j))
        && (HasItems(Held(st, dst, j)) ==> Present(st, src, i))
      else
        HasItems(Take(Held(st, src, i), Some(a.count)).1) ==> Access(st, dst, j).Ok?
  }

  /** What an action on well-formed slots loses: nothing if it is safe, and otherwise one stack, with items in it
      exactly if it is not safe for items either. */
  lemma ActionLoses(st: Stores, src: View, dst: View, a: InventoryAction)
    requires ViewFits(st, src) && ViewFits(st, dst)
    requires WellFormedSlot(Held(st, src, a.sourceSlot)) && WellFormedSlot(Held(st, dst, a.destinationSlot))
    ensures var p := Perform(st, src, dst, a);
      && (p.lost == [] <==> Safe(st, src, dst, a))
      && (p.lost != [] ==> |p.lost| == 1 && p.lost[0].itemName != "")
      && (SafeForItems(st, src, dst, a) <==> (p.lost == [] || p.lost[0].quantity == 0))
  {
    hide ViewFits, Access, ReadCell, TakeFromView, PutIntoView;
    var i, j := a.sourceSlot, a.destinationSlot;
    if src.canTake && dst.canPlace {
      if Access(st, src, i).Err? {
        TakeRefused(st, src, i, if a.swap then None else Some(a.count));
      } else if a.swap {
        SwapExact(st, src, i, dst, j, src, i);
      } else {
        TakeExact(Held(st, src, i), Some(a.count));
        MoveExact(st, src, i, dst, j, a.count, src, i);
      }
    }
  }

  /** An action on well-formed slots conserves all items exactly when the destination can take the items picked up. */
  lemma ActionConserves(st: Stores, src: View, dst: View, a: InventoryAction)
    requires ViewFits(st, src) && ViewFits(st, dst)
    requires WellFormedSlot(Held(st, src, a.sourceSlot)) && WellFormedSlot(Held(st, dst, a.destinationSlot))
    ensures var p := Perform(st, src, dst, a);
      (forall item :: item != "" ==> TotalItems(p.stores, item) == TotalItems(st, item)) <==>
        SafeForItems(st, src, dst, a)
  {
    hide ViewFits, Perform, SafeForItems, Safe, TotalItems;
    ActionLoses(st, src, dst, a);
    var p := Perform(st, src, dst, a);
    forall item | item != ""
      ensures TotalItems(p.stores, item) + LostTotal(p.lost, item) == TotalItems(st, item)
    {
      ActionLedger(st, src, dst, a, item);
    }
    if p.lost != [] {
      assert p.lost[1..] == [];
      assert forall item :: LostTotal(p.lost, item) == Count(Some(p.lost[0]), item);
      assert LostTotal(p.lost, p.lost[0].itemName) == p.lost[0].quantity;
    }
  }

  /** The guard that fails: a destination slot past the end of the view drops what was already taken. */
  lemma OutOfRangeDestinationLoses()
    ensures var dirt := ItemStack("dirt", 3, 256, true);
      var st := Stores(map[], map[], map[1 := [Some(BorrowedStack(NotBorrowed, dirt))], 2 := [None]]);
      var src := View(1, Dimensions(1, 1), true, true, false, Transient);
      var dst := View(2, Dimensions(1, 1), true, true, false, Transient);
      var p := Perform(st, src, dst, InventoryAction(1, 0, 2, 5, 2, false));
      && ViewFits(st, src) && ViewFits(st, dst)
      && p.outcome == Failed(SlotOutOfRange)
      && TotalItems(p.stores, "dirt") + 2 == TotalItems(st, "dirt")
  {
    var dirt := ItemStack("dirt", 3, 256, true);
    var st := Stores(map[], map[], map[1 := [Some(BorrowedStack(NotBorrowed, dirt))], 2 := [None]]);
    var src := View(1, Dimensions(1, 1), true, true, false, Transient);
    var dst := View(2, Dimensions(1, 1), true, true, false, Transient);
    var a := InventoryAction(1, 0, 2, 5, 2, false);
    ActionLedger(st, src, dst, a, "dirt");
    assert LostTotal(Perform(st, src, dst, a).lost, "dirt") == 2;
  }

  // ----- the player ------------------------------------------------------------------------------------------------

  function FirstWithId(views: seq<View>, id: ViewId): Option<View> {
    if views == [] then None else if views[0].id == id then Some(views[0]) else FirstWithId(views[1..], id)
  }

  function Flatten(popups: seq<seq<View>>): seq<View> {
    if popups == [] then [] else popups[0] + Flatten(popups[1..])
  }

  lemma {:induction false} FirstWithIdConcat(a: seq<View>, b: seq<View>, id: ViewId)
    ensures FirstWithId(a + b, id) == if FirstWithId(a, id).Some? then FirstWithId(a, id) else FirstWithId(b, id)
  {
    if a == [] { assert a + b == b; } else {
      FirstWithIdConcat(a[1..], b, id);
      assert (a + b)[1..] == a[1..] + b;
    }
  }

  /** All views of all popups. */
  lemma {:induction false} FlattenHas(popups: seq<seq<View>>, v: View)
    ensures v in Flatten(popups) <==> exists k :: 0 <= k < |popups| && v in popups[k]
  {
    if popups != [] {
      FlattenHas(popups[1..], v);
      if k :| 0 <= k < |popups[1..]| && v in popups[1..][k] {
        assert v in popups[k + 1];
      }
      if k :| 0 < k < |popups| && v in popups[k] {
        assert v in popups[1..][k - 1];
      }
    }
  }

  class PlayerState {
    const stores: InventoryStores
    var manipulationView: View
    var hotbarView: View
    /** The views of the open popups, and last those of the inventory popup. */
    var popups: seq<seq<View>>

    constructor (stores: InventoryStores, manipulationView: View, hotbarView: View, popups: seq<seq<View>>)
      ensures this.stores == stores && this.manipulationView == manipulationView
      ensures this.hotbarView == hotbarView && this.popups == popups
    {
      this.stores := stores;
      this.manipulationView, this.hotbarView, this.popups := manipulationView, hotbarView, popups;
    }

    /** All views a player can name, in the order in which they are searched. */
    function Views(): seq<View>
      reads this
    {
      [manipulationView, hotbarView] + Flatten(popups)
    }

    method FindInvView(id: ViewId) returns (r: Option<View>)
      ensures r == FirstWithId(Views(), id)
    {
      FirstWithIdConcat([manipulationView, hotbarView], Flatten(popups), id);
      if manipulationView.id == id {
        return Some(manipulationView);
      }
      if hotbarView.id == id {
        return Some(hotbarView);
      }
      for n := 0 to |popups|
        invariant FirstWithId(Flatten(popups), id) == FirstWithId(Flatten(popups[n..]), id)
      {
        var views := popups[n];
        assert popups[n..][1..] == popups[n + 1..];
        FirstWithIdConcat(views, Flatten(popups[n + 1..]), id);
        for m := 0 to |views|
          invariant FirstWithId(views, id) == FirstWithId(views[m..], id)
        {
          assert views[m..][1..] == views[m + 1..];
          if views[m].id == id {
            return Some(views[m]);
          }
        }
      }
      r := None;
    }

    /** Performs an action. `lost` lists the stacks that end up nowhere; the source logs or drops them. An action on a
        view that the player does not have, or without permission, changes nothing; every other is attempted. */
    method HandleInventoryAction(action: InventoryAction) returns (outcome: Outcome, lost: seq<ItemStack>)
      requires forall v :: v in Views() ==> ViewFits(stores.State(), v)
      modifies stores
      ensures var src, dst := FirstWithId(Views(), action.sourceView), FirstWithId(Views(), action.destinationView);
        if src.None? || dst.None? then
          outcome == ViewNotFound && lost == [] && stores.State() == old(stores.State())
        else
          && ViewFits(old(stores.State()), src.value) && ViewFits(old(stores.State()), dst.value)
          && Performed(stores.State(), outcome, lost) == Perform(old(stores.State()), src.value, dst.value, action)
          && (!(src.value.canTake && dst.value.canPlace) <==> outcome == NotPermitted)
          && (outcome == NotPermitted ==> lost == [] && stores.State() == old(stores.State()))
    {
      var foundSource := FindInvView(action.sourceView);
      if foundSource.None? {
        return ViewNotFound, [];
      }
      var foundDestination := FindInvView(action.destinationView);
      if foundDestination.None? {
        return ViewNotFound, [];
      }
      var src, dst := foundSource.value, foundDestination.value;
      ghost var st := stores.State();
      FoundIsView(Views(), action.sourceView);
      FoundIsView(Views(), action.destinationView);
      RefusedExactly(st, src, dst, action);
      if !(src.canTake && dst.canPlace) {
        return NotPermitted, [];
      }
      if action.swap {
        outcome, lost := SwapSlots(src, action.sourceSlot, dst, action.destinationSlot);
      } else {
        outcome, lost := MoveCount(src, action.sourceSlot, dst, action.destinationSlot, action.count);
      }
    }

    method SwapSlots(src: View, i: nat, dst: View, j: nat) returns (outcome: Outcome, lost: seq<ItemStack>)
      requires ViewFits(stores.State(), src) && ViewFits(stores.State(), dst)
      modifies stores
      ensures Performed(stores.State(), outcome, lost) == Swap(old(stores.State()), src, i, dst, j)
    {
      TakeFits(stores.State(), src, i, None, src);
      TakeFits(stores.State(), src, i, None, dst);
      var taken := stores.Take(src, i, None);
      if taken.Err? {
        return Failed(taken.error), [];
      }
      TakeFits(stores.State(), dst, j, None, src);
      TakeFits(stores.State(), dst, j, None, dst);
      var other := stores.Take(dst, j, None);
      if other.Err? {
        return Failed(other.error), InHand(taken.value);
      }
      if taken.value.Some? { PutFits(stores.State(), dst, j, taken.value.value, src); }
      outcome, lost := PutSwapped(dst, j, taken.value, other.value);
      if outcome == Done {
        outcome, lost := PutSwapped(src, i, other.value, None);
      }
    }

    /** One half of a swap: puts what is in hand, if anything, and insists that nothing is left over. */
    method PutSwapped(v: View, slot: nat, hand: Content, other: Content)
      returns (outcome: Outcome, lost: seq<ItemStack>)
      requires ViewFits(stores.State(), v)
      modifies stores
      ensures Performed(stores.State(), outcome, lost) == SwapPut(old(stores.State()), v, slot, hand, other)
    {
      if hand.None? {
        return Done, [];
      }
      var left := stores.Put(v, slot, hand.value);
      if left.Err? {
        return Failed(left.error), InHand(hand) + InHand(other);
      }
      if left.value.Some? {
        return UnexpectedLeftover, InHand(left.value) + InHand(other);
      }
      return Done, [];
    }

    method MoveCount(src: View, i: nat, dst: View, j: nat, count: u32) returns (outcome: Outcome, lost: seq<ItemStack>)
      requires ViewFits(stores.State(), src) && ViewFits(stores.State(), dst)
      modifies stores
      ensures Performed(stores.State(), outcome, lost) == Move(old(stores.State()), src, i, dst, j, count)
    {
      TakeFits(stores.State(), src, i, Some(count), src);
      TakeFits(stores.State(), src, i, Some(count), dst);
      var taken := stores.Take(src, i, Some(count));
      if taken.Err? {
        return Failed(taken.error), [];
      }
      if taken.value.None? {
        return Done, [];
      }
      PutFits(stores.State(), dst, j, taken.value.value, src);
      var leftover := stores.Put(dst, j, taken.value.value);
      if leftover.Err? {
        return Failed(leftover.error), InHand(taken.value);
      }
      if leftover.value.None? {
        return Done, [];
      }
      var stillLeftover := stores.Put(src, i, leftover.value.value);
      return Ending(stillLeftover), InHand(Remaining(stillLeftover, leftover.value));
    }
  }

  lemma {:induction false} FoundIsView(views: seq<View>, id: ViewId)
    ensures FirstWithId(views, id).Some? ==>
      FirstWithId(views, id).value in views && FirstWithId(views, id).value.id == id
    ensures FirstWithId(views, id).None? <==> forall v :: v in views ==> v.id != id
    ensures FirstWithId(views, id).Some? ==>
      exists k :: 0 <= k < |views| && FirstWithId(views, id).value == views[k]
                  && forall j :: 0 <= j < k ==> views[j].id != id
  {
    if views != [] {
      FoundIsView(views[1..], id);
      assert views == [views[0]] + views[1..];
    }
  }
}
