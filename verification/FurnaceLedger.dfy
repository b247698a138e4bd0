/** The books of a furnace over any run: flame against fuel, work against flame, results against inputs
    (cuberef_game_api/src/default_game/furnace.rs). */
module FurnaceLedger {
  import opened Wrappers
  import opened Items
  import opened Inventories
  import opened Furnace

  /** Whether this tick turns an input into a result. */
  predicate Finishes(books: Books, f: FurnaceState)
    requires RecipeKnown(books, f)
  {
    var b := Burned(books, f);
    && f.flameLeft > 0
    && f.smeltedItem != "" && f.smeltedItem == NameOf(f.input)
    && b.smeltProgress + 1 >= b.smeltTicks
    && b.input.value.quantity >= 1
    && MergeAll(b.output, Some(Current(books, b).result)).1
  }

  function IfThen(c: bool, n: int): int { if c then n else 0 }

  /** A furnace without a flame only shuts down if there is nothing to burn or nothing to smelt. */
  predicate KeepsWarm(books: Books, f: FurnaceState) { books.Burning(f.fuel).Some? && books.Smelting(f.input).Some? }

  /** The block: on with a flame in this tick or from now on, off once it shuts down; other blocks stay. */
  function LooksAfter(books: Books, f: FurnaceState): FurnaceLook {
    if f.block.OtherBlock? then OtherBlock
    else if f.flameLeft > 0 then FurnaceOn
    else if KeepsWarm(books, f) then (if GivesOne(f.fuel) then FurnaceOn else f.block)
    else FurnaceOff
  }

  /** A piece can be taken from the stack. */
  predicate GivesOne(s: MaybeStack) { s.Some? && s.value.stackable && s.value.quantity >= 1 }

  /** All of a stack can be added to a slot. */
  predicate HasRoomFor(slot: MaybeStack, stack: ItemStack) {
    slot.Some? ==>
      && slot.value.itemName == stack.itemName && slot.value.maxStack > 0 && stack.maxStack > 0
      && (stack.quantity == 0 || slot.value.quantity + stack.quantity <= slot.value.maxStack)
  }

  /** A slot with a stack added to it. */
  function With(slot: MaybeStack, stack: ItemStack): ItemStack
    requires slot.Some? ==> slot.value.quantity + stack.quantity <= U32_MAX
  {
    if slot.None? then stack else slot.value.(quantity := slot.value.quantity + stack.quantity)
  }

  lemma MergesAll(slot: MaybeStack, stack: ItemStack)
    ensures var (s, ok) := MergeAll(slot, Some(stack));
      && (ok <==> HasRoomFor(slot, stack))
      && (!ok ==> s == slot)
      && (ok ==> (slot.Some? ==> slot.value.quantity + stack.quantity <= U32_MAX) && s == Some(With(slot, stack)))
  {
  }

  /** What the flame's part does: it uses up one tick of flame, or one piece of fuel, or nothing. */
  lemma BurnedExact(books: Books, f: FurnaceState, item: string)
    ensures var b := Burned(books, f);
      && b.flameLeft == (if f.flameLeft > 0 then f.flameLeft - 1
                         else if Lights(books, f) then books.Burning(f.fuel).value else 0)
      && Count(b.fuel, item) == Count(f.fuel, item) - IfThen(Lights(books, f) && NameOf(f.fuel) == item, 1)
      && b.input == f.input && b.output == f.output && b.smeltedItem == f.smeltedItem && b.smeltTicks == f.smeltTicks
      && b.smeltProgress == (if f.flameLeft == 0 && !KeepsWarm(books, f) then 0 else f.smeltProgress)
      && (b.fuel.Some? ==> b.fuel == Some(f.fuel.value.(quantity := b.fuel.value.quantity)))
      && b.block == LooksAfter(books, f)
  {
  }

  predicate IsLast(input: MaybeStack) { GivesOne(input) && input.value.quantity == 1 }

  /** An input that stacks has one item fewer after a smelt, and is gone with its last one. */
  function AfterSmelt(input: MaybeStack): MaybeStack {
    if !GivesOne(input) then input else Decrement(input.value)
  }

  lemma InputAfterSmelt(input: MaybeStack)
    ensures QuantityOf(input) >= 1 ==> TakeAll(input, ONE).0 == AfterSmelt(input)
  {
  }

  lemma FinishedExact(books: Books, f: FurnaceState, item: string)
    requires books.Smelting(f.input).Some? && RecipeKnown(books, f) && f.smeltedItem == NameOf(f.input) != ""
    ensures var g := Finished(books, f);
      var done := f.input.value.quantity >= 1 && HasRoomFor(f.output, Current(books, f).result);
      && RecipeKnown(books, g)
      && Count(g.input, item) ==
           Count(f.input, item) - IfThen(done && f.input.value.stackable && NameOf(f.input) == item, 1)
      && Count(g.output, item) == Count(f.output, item) + IfThen(done, Count(Some(Current(books, f).result), item))
      && g.output == (if done then MergeAll(f.output, Some(Current(books, f).result)).0 else f.output)
      && g.input == (if done then AfterSmelt(f.input) else f.input)
      && g.smeltProgress == (if f.input.value.quantity < 1 || done then 0 else f.smeltProgress)
      && g.smeltedItem == (if f.input.value.quantity < 1 || (done && IsLast(f.input)) then "" else f.smeltedItem)
      && g.fuel == f.fuel && g.flameLeft == f.flameLeft && g.block == f.block
  {
    hide Merge, Take;
    MergesAll(f.output, Current(books, f).result);
    AllOrNothing(f.output, Some(Current(books, f).result), ONE);
    AllOrNothing(f.input, None, ONE);
    InputAfterSmelt(f.input);
    MergeExact(f.output, Some(Current(books, f).result));
    TakeExact(f.input, ONE);
  }

  /** One tick, completely: what becomes of the flame, the block, the three slots, the progress and what is being
      smelted. Items appear in the output, and go from the input and the fuel, only as the recipes say; an input that
      does not stack is not used up. The progress starts over with another input and when the furnace shuts down, grows
      by one in each tick that begins with a flame, and stays otherwise. */
  lemma TickExact(books: Books, f: FurnaceState, item: string)
    requires RecipeKnown(books, f) && GoodBooks(books)
    ensures var g := Ticked(books, f);
      var lit := f.flameLeft == 0 && KeepsWarm(books, f) && GivesOne(f.fuel);
      var smelts := f.flameLeft > 0 && f.smeltedItem == NameOf(f.input) != "";
      var full := smelts && f.smeltProgress + 1 >= f.smeltTicks;
      var done := Finishes(books, f);
      && RecipeKnown(books, g)
      && (Lights(books, f) <==> lit)
      && (done <==> full && QuantityOf(f.input) >= 1
                    && HasRoomFor(f.output, books.recipes(f.smeltedItem).value.result))
      && g.flameLeft == (if f.flameLeft > 0 then f.flameLeft - 1
                         else if lit then books.Burning(f.fuel).value else 0)
      && Count(g.fuel, item) == Count(f.fuel, item) - IfThen(lit && NameOf(f.fuel) == item, 1)
      && (g.fuel.Some? ==> g.fuel == Some(f.fuel.value.(quantity := g.fuel.value.quantity)))
      && Count(g.input, item) == Count(f.input, item)
           - IfThen(done && f.input.value.stackable && NameOf(f.input) == item, 1)
      && Count(g.output, item) == Count(f.output, item)
           + (if done then Count(Some(books.recipes(f.smeltedItem).value.result), item) else 0)
      && g.input == (if done then AfterSmelt(f.input) else f.input)
      && (done ==>
            && (f.output.Some? ==>
                  f.output.value.quantity + books.recipes(f.smeltedItem).value.result.quantity <= U32_MAX)
            && g.output == Some(With(f.output, books.recipes(f.smeltedItem).value.result)))
      && (!done ==> g.output == f.output)
      && g.smeltProgress == (
           if f.smeltedItem != NameOf(f.input) then 0
           else if f.flameLeft == 0 then (if KeepsWarm(books, f) then f.smeltProgress else 0)
           else if !smelts then f.smeltProgress
           else if full && (done || QuantityOf(f.input) < 1) then 0
           else f.smeltProgress + 1)
      && g.smeltedItem == (
           if f.smeltedItem != NameOf(f.input) then (if books.Smelting(f.input).Some? then NameOf(f.input) else "")
           else if full && (QuantityOf(f.input) < 1 || (done && IsLast(f.input))) then ""
           else f.smeltedItem)
      && g.block == LooksAfter(books, f)
  {
    LightsExactly(books, f);
    hide Burned, Finished, Lights, MergeAll, HasRoomFor, LooksAfter, GivesOne, AfterSmelt;
    BurnedExact(books, f, item);
    var b := Burned(books, f);
    if b.smeltedItem == NameOf(b.input) && f.flameLeft > 0 && b.smeltedItem != "" {
      MergesAll(b.output, Current(books, b).result);
      var c := b.(smeltProgress := b.smeltProgress + 1);
      if c.smeltProgress >= c.smeltTicks {
        FinishedExact(books, c, item);
      }
    }
  }

  lemma LightsExactly(books: Books, f: FurnaceState)
    ensures Lights(books, f) <==> f.flameLeft == 0 && KeepsWarm(books, f) && GivesOne(f.fuel)
  {
  }

  // ----- runs ------------------------------------------------------------------------------------------------------

  datatype Step = Tick | Exchange(input: MaybeStack, output: MaybeStack, fuel: MaybeStack)

  datatype Ledger = Ledger(
    bought: int,          // flame of all fuel used up
    burned: int,          // ticks that began with a flame
    work: int,            // the time that the finished recipes take
    lights: int,
    smelts: int,
    freeSmelts: int,      // of inputs that do not stack
    fuelTaken: int,
    inputsTaken: int)

  const BLANK: Ledger := Ledger(0, 0, 0, 0, 0, 0, 0, 0)

  function Quantity(slot: MaybeStack): int { if slot.Some? then slot.value.quantity else 0 }

  function Do(books: Books, f: FurnaceState, step: Step): FurnaceState
    requires RecipeKnown(books, f)
  {
    match step
    case Tick => Ticked(books, f)
    case Exchange(input, output, fuel) => f.(input := input, output := output, fuel := fuel)
  }

  /** What goes into the books; the last two entries are what is found to be gone. */
  function Entered(books: Books, f: FurnaceState, l: Ledger, step: Step): Ledger
    requires RecipeKnown(books, f)
  {
    if !step.Tick? then l
    else
      var g, lit, done := Ticked(books, f), Lights(books, f), Finishes(books, f);
      Ledger(
        l.bought + (if lit then books.Burning(f.fuel).value else 0),
        l.burned + IfThen(f.flameLeft > 0, 1),
        l.work + (if done then books.recipes(f.smeltedItem).value.ticks else 0),
        l.lights + IfThen(lit, 1),
        l.smelts + IfThen(done, 1),
        l.freeSmelts + IfThen(done && !f.input.value.stackable, 1),
        l.fuelTaken + Quantity(f.fuel) - Quantity(g.fuel),
        l.inputsTaken + Quantity(f.input) - Quantity(g.input))
  }

  predicate Balanced(books: Books, f: FurnaceState, l: Ledger) {
    && RecipeKnown(books, f)
    && l.burned + f.flameLeft == l.bought
    && l.work + f.smeltProgress <= l.burned
    && l.fuelTaken == l.lights
    && l.inputsTaken + l.freeSmelts == l.smelts
    && l.freeSmelts >= 0
  }

  /** A slot that only loses items keeps its name as long as it holds any. */
  lemma TickKeepsNames(books: Books, f: FurnaceState)
    requires RecipeKnown(books, f)
    ensures var g := Ticked(books, f);
      && (g.fuel.Some? ==> NameOf(g.fuel) == NameOf(f.fuel))
      && (g.input.Some? ==> NameOf(g.input) == NameOf(f.input))
  {
    hide Merge, Take;
    TakeExact(f.fuel, ONE);
    TakeExact(f.input, ONE);
  }

  lemma TickBalances(books: Books, f: FurnaceState, l: Ledger)
    requires GoodBooks(books) && Balanced(books, f, l)
    ensures Balanced(books, Ticked(books, f), Entered(books, f, l, Tick))
  {
    hide Ticked, Finishes, Lights;
    var g := Ticked(books, f);
    TickExact(books, f, NameOf(f.fuel));
    TickExact(books, f, NameOf(f.input));
    TickKeepsNames(books, f);
  }

  predicate RunsFrom(books: Books, f: FurnaceState, steps: seq<Step>)
    requires RecipeKnown(books, f)
    decreases |steps|
  {
    steps == [] || (RecipeKnown(books, Do(books, f, steps[0])) && RunsFrom(books, Do(books, f, steps[0]), steps[1..]))
  }

  function AfterRun(books: Books, f: FurnaceState, steps: seq<Step>): FurnaceState
    requires RecipeKnown(books, f) && RunsFrom(books, f, steps)
    decreases |steps|
  {
    if steps == [] then f else AfterRun(books, Do(books, f, steps[0]), steps[1..])
  }

  function LedgerAfter(books: Books, f: FurnaceState, l: Ledger, steps: seq<Step>): Ledger
    requires RecipeKnown(books, f) && RunsFrom(books, f, steps)
    decreases |steps|
  {
    if steps == [] then l
    else LedgerAfter(books, Do(books, f, steps[0]), Entered(books, f, l, steps[0]), steps[1..])
  }

  lemma {:induction false} BalancedOverRun(books: Books, f: FurnaceState, l: Ledger, steps: seq<Step>)
    requires GoodBooks(books) && Balanced(books, f, l)
    ensures RunsFrom(books, f, steps)
    ensures Balanced(books, AfterRun(books, f, steps), LedgerAfter(books, f, l, steps))
    decreases |steps|
  {
    hide Ticked, Finishes, Lights;
    if steps != [] {
      var next, l' := Do(books, f, steps[0]), Entered(books, f, l, steps[0]);
      if steps[0].Tick? {
        TickBalances(books, f, l);
      }
      BalancedOverRun(books, next, l', steps[1..]);
    }
  }

  /** Over every run of ticks, whatever is put into or taken out of the slots in between: the ticks with a flame and the
      flame left are what the fuel used up gives, one piece for each lighting; the finished recipes took no more time
      than there was flame; one input was used up for each result, but for inputs that do not stack; and what is being
      smelted always has its recipe. */
  lemma FurnaceBalances(books: Books, f: FurnaceState, steps: seq<Step>)
    requires GoodBooks(books) && f.flameLeft == 0 && f.smeltProgress == 0 && f.smeltedItem == ""
    ensures RunsFrom(books, f, steps)
    ensures var g, l := AfterRun(books, f, steps), LedgerAfter(books, f, BLANK, steps);
      && l.burned + g.flameLeft == l.bought
      && l.work + g.smeltProgress <= l.burned
      && l.fuelTaken == l.lights
      && (l.inputsTaken == l.smelts <==> l.freeSmelts == 0)
      && (g.smeltedItem != "" ==> books.recipes(g.smeltedItem).Some?
                                  && g.smeltTicks == books.recipes(g.smeltedItem).value.ticks)
  {
    hide RunsFrom, AfterRun, LedgerAfter;
    BalancedOverRun(books, f, BLANK, steps);
  }

  /** An input that does not stack is smelted for nothing: a result appears and the input stays. */
  lemma UnstackableInputIsFree(name: string, result: ItemStack)
    requires name != ""
    ensures var books := Books((n: string) => if n == name then Some(Recipe(result, 1)) else None, _ => None);
      var input := Some(ItemStack(name, 1, 0, false));
      var f := FurnaceState(1, 0, 1, name, input, None, None, FurnaceOn);
      && GoodBooks(books) && RecipeKnown(books, f)
      && Ticked(books, f).output == Some(result) && Ticked(books, f).input == input
  {
  }
}
