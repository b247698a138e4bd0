/** How long a smelt takes, and which ticks leave a changed furnace unsaved
    (cuberef_game_api/src/default_game/furnace.rs). */
module FurnaceProgress {
  import opened Wrappers
  import opened Items
  import opened Inventories
  import opened Furnace
  import opened FurnaceLedger

  // ----- a smelt ---------------------------------------------------------------------------------------------------

  /** The states of a furnace from one tick to the next, with its slots left alone. */
  predicate AreTicks(books: Books, states: seq<FurnaceState>) {
    && (forall k :: 0 <= k < |states| ==> RecipeKnown(books, states[k]))
    && forall k :: 0 <= k < |states| - 1 ==> states[k + 1] == Ticked(books, states[k])
  }

  /** No tick finds the furnace without a flame and without fuel for a new one. */
  predicate StaysHot(books: Books, states: seq<FurnaceState>) {
    forall k :: 0 <= k < |states| - 1 ==>
      states[k].flameLeft > 0 || (books.Burning(states[k].fuel).Some? && GivesOne(states[k].fuel))
  }

  /** How many of the ticks between the states begin with a flame. */
  function FlameTicks(states: seq<FurnaceState>): nat {
    if |states| <= 1 then 0
    else FlameTicks(states[..|states| - 1]) + if states[|states| - 2].flameLeft > 0 then 1 else 0
  }

  /** A furnace that has something to smelt, and is at the start of it. */
  predicate StartsSmelting(books: Books, f: FurnaceState) {
    && f.smeltedItem == NameOf(f.input) != "" && f.smeltProgress == 0 && QuantityOf(f.input) >= 1
    && books.Smelting(f.input).Some?
  }

  /** Until there have been as many ticks with a flame as the recipe takes, however often the flame went out and was lit
      again in between, the slots are as they were and the progress counts those ticks. */
  lemma {:induction false} SmeltGoesOn(books: Books, states: seq<FurnaceState>)
    requires GoodBooks(books) && states != [] && AreTicks(books, states) && StaysHot(books, states)
    requires StartsSmelting(books, states[0])
    requires FlameTicks(states) == 0 || FlameTicks(states) < states[0].smeltTicks
    ensures var f, g := states[0], states[|states| - 1];
      && g.input == f.input && g.output == f.output && g.smeltedItem == f.smeltedItem && g.smeltTicks == f.smeltTicks
      && g.smeltProgress == FlameTicks(states)
    decreases |states|
  {
    hide Ticked, Finishes, Lights, HasRoomFor, AfterSmelt;
    if |states| > 1 {
      var n := |states| - 1;
      SmeltGoesOn(books, states[..n]);
      TickExact(books, states[n - 1], "");
      assert states[n] == Ticked(books, states[n - 1]);
    }
  }

  /** With the last of as many ticks with a flame as the recipe takes, the result is in the output, if that had room for
      it, and one item is gone from an input that stacks. */
  lemma SmeltEnds(books: Books, states: seq<FurnaceState>)
    requires GoodBooks(books) && |states| > 1 && AreTicks(books, states) && StaysHot(books, states)
    requires StartsSmelting(books, states[0])
    requires states[|states| - 2].flameLeft > 0
    requires FlameTicks(states) == if states[0].smeltTicks == 0 then 1 else states[0].smeltTicks
    ensures var f, g := states[0], states[|states| - 1];
      var result := books.Smelting(f.input).value.result;
      && g.input == (if HasRoomFor(f.output, result) then AfterSmelt(f.input) else f.input)
      && (HasRoomFor(f.output, result) ==>
            && (f.output.Some? ==> f.output.value.quantity + result.quantity <= U32_MAX)
            && g.output == Some(With(f.output, result)) && g.smeltProgress == 0)
      && (!HasRoomFor(f.output, result) ==> g.output == f.output && g.smeltProgress == FlameTicks(states))
  {
    hide Ticked, Finishes, Lights, HasRoomFor, AfterSmelt;
    var n := |states| - 1;
    SmeltGoesOn(books, states[..n]);
    TickExact(books, states[n - 1], "");
    assert states[n] == Ticked(books, states[n - 1]);
  }

  lemma {:induction false} FlameLasts(books: Books, states: seq<FurnaceState>)
    requires GoodBooks(books) && states != [] && AreTicks(books, states)
    requires states[0].flameLeft >= |states| - 1
    ensures forall k :: 0 <= k < |states| ==> states[k].flameLeft == states[0].flameLeft - k
    ensures FlameTicks(states) == |states| - 1
    decreases |states|
  {
    hide Ticked, Finishes, Lights, LooksAfter;
    if |states| > 1 {
      var n := |states| - 1;
      FlameLasts(books, states[..n]);
      TickExact(books, states[n - 1], "");
      assert states[n] == Ticked(books, states[n - 1]);
    }
  }

  /** A lit furnace whose flame lasts as many ticks as the recipe takes has the result after just those ticks. */
  lemma SmeltOnOneFlame(books: Books, states: seq<FurnaceState>)
    requires GoodBooks(books) && AreTicks(books, states) && |states| > 1
    requires StartsSmelting(books, states[0]) && |states| - 1 == states[0].smeltTicks <= states[0].flameLeft
    requires HasRoomFor(states[0].output, books.Smelting(states[0].input).value.result)
    ensures var f, g := states[0], states[|states| - 1];
      var result := books.Smelting(f.input).value.result;
      && (f.output.Some? ==> f.output.value.quantity + result.quantity <= U32_MAX)
      && g.output == Some(With(f.output, result)) && g.input == AfterSmelt(f.input) && g.smeltProgress == 0
      && forall k :: 0 <= k < |states| - 1 ==> states[k].output == f.output && states[k].smeltProgress == k
  {
    hide Ticked, HasRoomFor, AfterSmelt;
    FlameLasts(books, states);
    SmeltEnds(books, states);
    forall k | 0 <= k < |states| - 1
      ensures states[k].output == states[0].output && states[k].smeltProgress == k
    {
      FlameLasts(books, states[..k + 1]);
      SmeltGoesOn(books, states[..k + 1]);
    }
  }

  // ----- what is not saved -----------------------------------------------------------------------------------------

  /** The ticks whose changes nothing marks. Either the flame burns for nothing; or smelting stops, because the slot
      holds another item that cannot be smelted, or because the last item has just been smelted, or there was none. In
      all of them the block looks as before. */
  predicate Unsaved(books: Books, f: FurnaceState)
    requires RecipeKnown(books, f)
  {
    && LooksAfter(books, f) == f.block
    && if f.smeltedItem != NameOf(f.input) then
         books.Smelting(f.input).None? && (f.flameLeft > 0 || f.smeltedItem != "" || f.smeltProgress > 0)
       else
         && f.flameLeft > 0
         && (f.smeltedItem != "" ==>
               && f.smeltProgress + 1 >= f.smeltTicks
               && (QuantityOf(f.input) < 1
                   || (IsLast(f.input) && HasRoomFor(f.output, books.recipes(f.smeltedItem).value.result))))
  }

  /** A tick that changes the furnace asks for it to be saved, or changes the block, for which it is saved as well,
      unless it is one of these; and a tick that changes nothing does neither. */
  lemma UnsavedExactly(books: Books, f: FurnaceState)
    requires RecipeKnown(books, f) && GoodBooks(books)
    ensures var g := Ticked(books, f);
      && (Marks(books, f) || g.block != f.block <==> g != f && !Unsaved(books, f))
      && (Unsaved(books, f) ==> g != f)
  {
    TickExact(books, f, "");
  }
}
