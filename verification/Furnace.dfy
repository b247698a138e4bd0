/** The furnace's timer callback (cuberef_game_api/src/default_game/furnace.rs). */
module Furnace {
  import opened Wrappers
  import opened Items

  datatype Recipe = Recipe(result: ItemStack, ticks: nat)

  /** What can be smelted, and how long each fuel burns. A recipe needs one item; an empty slot matches none. */
  datatype Books = Books(recipes: string -> Option<Recipe>, fuels: string -> Option<nat>)
  {
    function Smelting(slot: MaybeStack): Option<Recipe> {
      if slot.None? then None else recipes(slot.value.itemName)
    }

    function Burning(slot: MaybeStack): Option<nat> {
      if slot.None? then None else fuels(slot.value.itemName)
    }
  }

  /** No item has an empty name. */
  predicate GoodBooks(books: Books) { books.recipes("").None? }

  datatype FurnaceLook = FurnaceOff | FurnaceOn | OtherBlock

  datatype FurnaceState = FurnaceState(
    flameLeft: nat,
    smeltProgress: nat,
    smeltTicks: nat,
    smeltedItem: string,
    input: MaybeStack,
    output: MaybeStack,
    fuel: MaybeStack,
    block: FurnaceLook)

  const ONE: Option<u32> := Some(1)

  function NameOf(slot: MaybeStack): string { if slot.Some? then slot.value.itemName else "" }

  // ----- one tick --------------------------------------------------------------------------------------------------

  function SetAppearanceOn(f: FurnaceState): FurnaceState {
    if f.block.FurnaceOff? then f.(block := FurnaceOn) else f
  }

  function ShutDown(f: FurnaceState): FurnaceState {
    f.(block := if f.block.FurnaceOn? then FurnaceOff else f.block, smeltProgress := 0)
  }

  /** Whether the furnace takes new fuel in this tick. */
  predicate Lights(books: Books, f: FurnaceState) {
    && f.flameLeft == 0
    && books.Burning(f.fuel).Some? && books.Smelting(f.input).Some?
    && TakeAll(f.fuel, ONE).1.Some?
  }

  /** The flame's part of a tick. */
  function Burned(books: Books, f: FurnaceState): FurnaceState {
    if f.flameLeft > 0 then SetAppearanceOn(f.(flameLeft := f.flameLeft - 1))
    else if Lights(books, f) then
      SetAppearanceOn(f.(flameLeft := books.Burning(f.fuel).value, fuel := TakeAll(f.fuel, ONE).0))
    else if books.Burning(f.fuel).Some? && books.Smelting(f.input).Some? then f
    else ShutDown(f)
  }

  /** Another input than before. */
  function Restarted(books: Books, f: FurnaceState): FurnaceState {
    var recipe := books.Smelting(f.input);
    if recipe.None? then f.(smeltProgress := 0, smeltedItem := "")
    else f.(smeltProgress := 0, smeltTicks := recipe.value.ticks, smeltedItem := NameOf(f.input))
  }

  /** The recipe of what is being smelted. */
  function Current(books: Books, f: FurnaceState): Recipe
    requires books.Smelting(f.input).Some?
  {
    books.Smelting(f.input).value
  }

  /** The last tick of a smelt. */
  function Finished(books: Books, f: FurnaceState): FurnaceState
    requires books.Smelting(f.input).Some?
  {
    var (output, fits) := MergeAll(f.output, Some(Current(books, f).result));
    if f.input.value.quantity < 1 then f.(smeltProgress := 0, smeltedItem := "")
    else if !fits then f
    else
      var after := f.(output := output, input := TakeAll(f.input, ONE).0, smeltProgress := 0);
      var next := books.Smelting(after.input);
      if next.None? then after.(smeltedItem := "") else after.(smeltTicks := next.value.ticks)
  }

  /** The smelting part of a tick, after the flame's. */
  function Smelted(books: Books, f: FurnaceState, hadFlame: bool): FurnaceState
    requires RecipeKnown(books, f)
  {
    if f.smeltedItem != NameOf(f.input) then Restarted(books, f)
    else if hadFlame && f.smeltedItem != "" then
      var g := f.(smeltProgress := f.smeltProgress + 1);
      if g.smeltProgress >= g.smeltTicks then Finished(books, g) else g
    else f
  }

  /** What is being smelted has a recipe, and takes as long as the recipe says: the source unwraps it. */
  predicate RecipeKnown(books: Books, f: FurnaceState) {
    f.smeltedItem != "" ==>
      books.recipes(f.smeltedItem).Some? && f.smeltTicks == books.recipes(f.smeltedItem).value.ticks
  }

  function Ticked(books: Books, f: FurnaceState): FurnaceState
    requires RecipeKnown(books, f)
  {
    Smelted(books, Burned(books, f), f.flameLeft > 0)
  }

  /** Whether the flame's part asks for the furnace to be saved. */
  predicate FlameMarks(books: Books, f: FurnaceState) {
    if f.flameLeft > 0 then f.block.FurnaceOff?
    else if books.Burning(f.fuel).Some? && books.Smelting(f.input).Some? then Lights(books, f)
    else f.block.FurnaceOn? || f.smeltProgress > 0
  }

  /** Whether a tick asks for the furnace to be saved: the source does so at its end, which it does not reach when it
      stops smelting. */
  predicate Marks(books: Books, f: FurnaceState)
    requires RecipeKnown(books, f)
  {
    if f.smeltedItem != NameOf(f.input) then books.Smelting(f.input).Some?
    else if f.flameLeft > 0 && f.smeltedItem != "" then Ticked(books, f).smeltedItem != ""
    else FlameMarks(books, f)
  }

  // ----- the callback ----------------------------------------------------------------------------------------------

  class FurnaceTimer {
    const books: Books
    var flameLeft: nat
    var smeltProgress: nat
    var smeltTicks: nat
    var smeltedItem: string
    const input: Slot
    const output: Slot
    const fuel: Slot
    var block: FurnaceLook

    ghost predicate Valid()
      reads this, input, output, fuel
    {
      && input != output && input != fuel && output != fuel
      && RecipeKnown(books, Value())
    }

    ghost function Value(): FurnaceState
      reads this, input, output, fuel
    {
      FurnaceState(flameLeft, smeltProgress, smeltTicks, smeltedItem, input.stack, output.stack, fuel.stack, block)
    }

    constructor (books: Books, block: FurnaceLook)
      ensures Valid() && fresh(input) && fresh(output) && fresh(fuel) && this.books == books
      ensures Value() == FurnaceState(0, 0, 0, "", None, None, None, block)
    {
      this.books, this.block := books, block;
      flameLeft, smeltProgress, smeltTicks, smeltedItem := 0, 0, 0, "";
      input := new Slot(None);
      output := new Slot(None);
      fuel := new Slot(None);
    }

    /** Returns whether anything changed. */
    method ShutDownFurnace() returns (changed: bool)
      modifies this`block, this`smeltProgress
      ensures Value() == ShutDown(old(Value())) && (changed <==> Value() != old(Value()))
    {
      changed := block.FurnaceOn? || smeltProgress > 0;
      if block.FurnaceOn? {
        block := FurnaceOff;
      }
      if smeltProgress > 0 {
        smeltProgress := 0;
      }
    }

    method SetOn() returns (changed: bool)
      modifies this`block
      ensures Value() == SetAppearanceOn(old(Value())) && (changed <==> Value() != old(Value()))
    {
      changed := block.FurnaceOff?;
      if block.FurnaceOff? {
        block := FurnaceOn;
      }
    }

    /** Returns whether the furnace has to be saved, as far as the flame is concerned. */
    method BurnFlame() returns (setDirty: bool)
      requires Valid()
      modifies this`flameLeft, this`block, this`smeltProgress, fuel
      ensures Valid() && Value() == Burned(books, old(Value()))
      ensures setDirty == FlameMarks(books, old(Value()))
    {
      setDirty := false;
      if flameLeft == 0 {
        var fueling := books.Burning(fuel.stack);
        if fueling.Some? && books.Smelting(input.stack).Some? {
          var taken := fuel.TryTakeAll(ONE);
          if taken.Some? {
            flameLeft := fueling.value;
            setDirty := true;
            var _ := SetOn();
          }
        } else {
          setDirty := ShutDownFurnace();
        }
      } else {
        flameLeft := flameLeft - 1;
        setDirty := SetOn();
      }
    }

    /** The inline callback: one tick. Returns whether it asks for the furnace to be saved. */
    method Tick() returns (setDirty: bool)
      requires Valid() && GoodBooks(books)
      modifies this, input, output, fuel
      ensures Valid() && Value() == Ticked(books, old(Value()))
      ensures setDirty == Marks(books, old(Value()))
    {
      var prevFlame := flameLeft;
      setDirty := BurnFlame();
      ghost var burned := Value();
      var currentInput := NameOf(input.stack);
      if smeltedItem != currentInput {
        smeltProgress := 0;
        var recipe := books.Smelting(input.stack);
        if recipe.None? {
          smeltedItem := "";
          return false;
        }
        smeltTicks := recipe.value.ticks;
        smeltedItem := currentInput;
        setDirty := true;
      } else if prevFlame > 0 && smeltedItem != "" {
        smeltProgress := smeltProgress + 1;
        setDirty := true;
        if smeltProgress >= smeltTicks {
          setDirty := Finish();
        }
      }
    }

    /** Returns whether smelting goes on; the source leaves the callback when it does not. */
    method Finish() returns (goesOn: bool)
      requires Valid() && smeltedItem != "" && smeltedItem == NameOf(input.stack)
      modifies this`smeltProgress, this`smeltTicks, this`smeltedItem, input, output
      ensures Valid() && Value() == Finished(books, old(Value()))
      ensures goesOn <==> smeltedItem != ""
    {
      var recipe := books.Smelting(input.stack).value;
      var canTakeInput := input.stack.value.quantity >= 1;
      if !canTakeInput {
        smeltedItem := "";
        smeltProgress := 0;
        return false;
      }
      var fits := output.TryMergeAll(Some(recipe.result));
      if fits {
        var _ := input.TryTakeAll(ONE);
        smeltProgress := 0;
        var next := books.Smelting(input.stack);
        if next.None? {
          smeltedItem := "";
          return false;
        }
        smeltTicks := next.value.ticks;
      }
      goesOn := true;
    }
  }
}
