/** Block ids stay the same from one run of the server to the next (cuberef_server/src/game_state/blocks.rs). */
module IdStability {
  import opened Wrappers
  import opened BlockRegistry

  /** A block really registered, not just reserved by what was loaded. */
  predicate IsRegistered(r: Registry, name: string)
    requires name in r.ids ==> PlaceOf(r.ids[name]) < |r.blocks|
  {
    name in r.ids && !r.blocks[PlaceOf(r.ids[name])].isUnknown
  }

  // ----- saving ----------------------------------------------------------------------------------------------------

  /** What can be loaded: no two entries share a name or an id. */
  ghost predicate GoodProto(proto: seq<Assignment>) {
    && NoVariants(proto)
    && (forall a, b :: a in proto && b in proto && (a.shortName == b.shortName || a.id == b.id) ==> a == b)
  }

  /** A registered block with the name and the id of an entry. */
  predicate IsEntry(b: BlockType, a: Assignment) { !b.isUnknown && b.shortName == a.shortName && b.id == a.id }

  lemma {:induction false} ToProtoExact(blocks: seq<BlockType>, a: Assignment)
    requires forall i :: 0 <= i < |blocks| ==> blocks[i].id < U32_COUNT
    ensures a in ToProto(blocks) <==>
            exists i :: 0 <= i < |blocks| && IsEntry(blocks[i], a)
  {
    if blocks != [] {
      var n := |blocks| - 1;
      ToProtoExact(blocks[..n], a);
      if a in ToProto(blocks[..n]) {
        var i :| 0 <= i < n && IsEntry(blocks[..n][i], a);
        assert blocks[i] == blocks[..n][i];
      }
      if i :| 0 <= i < |blocks| && IsEntry(blocks[i], a) {
        assert i < n ==> blocks[..n][i] == blocks[i];
      }
    }
  }

  /** What is saved is the registered names with their ids. */
  lemma SavedExactly(r: Registry)
    requires WellFormed(r)
    ensures forall i :: 0 <= i < |r.blocks| ==> r.blocks[i].id < U32_COUNT
    ensures GoodProto(ToProto(r.blocks))
    ensures forall a :: a in ToProto(r.blocks) ==> IsRegistered(r, a.shortName) && r.ids[a.shortName] == a.id
    ensures forall n :: n in r.ids && IsRegistered(r, n) ==>
              r.ids[n] < U32_COUNT && Assignment(n, r.ids[n]) in ToProto(r.blocks)
  {
    hide ToProto, BaseId, PlaceOf;
    IdsFit(r);
    forall a | a in ToProto(r.blocks)
      ensures IsRegistered(r, a.shortName) && r.ids[a.shortName] == a.id && a.id % VARIANTS == 0
    {
      ToProtoExact(r.blocks, a);
      var i :| 0 <= i < |r.blocks| && IsEntry(r.blocks[i], a);
      BaseIdIndex(i);
    }
    forall n | n in r.ids && IsRegistered(r, n)
      ensures Assignment(n, r.ids[n]) in ToProto(r.blocks)
    {
      var i := PlaceOf(r.ids[n]);
      ToProtoExact(r.blocks, Assignment(n, r.ids[n]));
      assert r.blocks[i].id == r.ids[n] && r.blocks[i].shortName == n;
    }
  }

  lemma BaseIdIndex(i: nat)
    ensures PlaceOf(BaseId(i)) == i && BaseId(i) % VARIANTS == 0
  {
  }

  // ----- loading ---------------------------------------------------------------------------------------------------

  lemma {:induction false} AssignedExact(ids: map<string, nat>, proto: seq<Assignment>, n: string)
    requires GoodProto(proto)
    ensures n in Assigned(ids, proto) <==> n in ids || exists a :: a in proto && a.shortName == n
    ensures forall a :: a in proto && a.shortName == n ==> Assigned(ids, proto)[n] == a.id
    ensures (n in ids && forall a :: a in proto ==> a.shortName != n) ==> Assigned(ids, proto)[n] == ids[n]
  {
    if proto != [] {
      var k := |proto| - 1;
      assert proto == proto[..k] + [proto[k]];
      AssignedExact(ids, proto[..k], n);
      IdOfIndex(proto[k].id);
      assert proto[k] in proto;
    }
  }

  lemma IdOfIndex(id: u32)
    ensures id % VARIANTS == 0 ==> BaseId(PlaceOf(id)) == id
  {
  }

  lemma {:induction false} PlaceholderIdsExact(present: set<nat>, k: nat, n: string)
    ensures n in PlaceholderIds(present, k) ==>
              exists i :: 0 <= i < k && i !in present && n == PlaceholderName(i)
                          && PlaceholderIds(present, k)[n] == BaseId(i)
  {
    hide PlaceholderName, BaseId;
    if k > 0 { PlaceholderIdsExact(present, k - 1, n); }
  }

  lemma {:induction false} MaxIndexBounds(proto: seq<Assignment>, a: Assignment)
    ensures a in proto ==> PlaceOf(a.id) <= MaxIndex(proto)
    ensures BaseId(MaxIndex(proto) + 1) <= U32_COUNT
  {
    if proto != [] {
      var k := |proto| - 1;
      assert proto == proto[..k] + [proto[k]];
      MaxIndexBounds(proto[..k], a);
    }
  }

  /** Loading reserves for each saved name its saved id, and nothing else under these ids. */
  lemma LoadedExactly(proto: seq<Assignment>)
    requires GoodProto(proto)
    ensures FromProto(proto).Ok?
    ensures var r := FromProto(proto).value;
      && WellFormed(r)
      && (forall a :: a in proto ==> a.shortName in r.ids && r.ids[a.shortName] == a.id)
      && (forall i :: 0 <= i < |r.blocks| ==> r.blocks[i].isUnknown)
  {
    hide PlaceholderName, BaseId, PlaceOf, Assigned, PlaceholderIds, PresentIndices, MaxIndex;
    var r := FromProto(proto).value;
    forall n | n in r.ids
      ensures PlaceOf(r.ids[n]) < |r.blocks| && r.ids[n] == BaseId(PlaceOf(r.ids[n]))
      ensures FromSaved(proto, n, r.ids[n]) || FromPlaceholder(proto, n, r.ids[n])
    {
      NameIsKnown(proto, n);
    }
    forall m, n | m in r.ids && n in r.ids && r.ids[m] == r.ids[n] ensures m == n {
      SameIdSameName(proto, m, n, r.ids[m]);
    }
    forall a | a in proto ensures a.shortName in r.ids && r.ids[a.shortName] == a.id {
      AssignedExact(PlaceholderIds(PresentIndices(proto), MaxIndex(proto) + 1), proto, a.shortName);
    }
    MaxIndexBounds(proto, Assignment("", 0));
  }

  predicate FromSaved(proto: seq<Assignment>, n: string, id: nat) { id < U32_COUNT && Assignment(n, id) in proto }

  predicate FromPlaceholder(proto: seq<Assignment>, n: string, id: nat) {
    && id == BaseId(PlaceOf(id)) && n == PlaceholderName(PlaceOf(id))
    && PlaceOf(id) !in PresentIndices(proto)
  }

  lemma NameIsKnown(proto: seq<Assignment>, n: string)
    requires GoodProto(proto) && n in FromProto(proto).value.ids
    ensures var r := FromProto(proto).value;
      && PlaceOf(r.ids[n]) < |r.blocks| && r.ids[n] == BaseId(PlaceOf(r.ids[n]))
      && (FromSaved(proto, n, r.ids[n]) || FromPlaceholder(proto, n, r.ids[n]))
  {
    hide PlaceholderName, BaseId, PlaceOf, Assigned, PlaceholderIds, PresentIndices, MaxIndex;
    var k := MaxIndex(proto) + 1;
    var reserved := PlaceholderIds(PresentIndices(proto), k);
    AssignedExact(reserved, proto, n);
    if a :| a in proto && a.shortName == n {
      MaxIndexBounds(proto, a);
      IdOfIndex(a.id);
      assert a == Assignment(n, a.id);
    } else {
      PlaceholderIdsExact(PresentIndices(proto), k, n);
      var i :| 0 <= i < k && i !in PresentIndices(proto) && n == PlaceholderName(i) && reserved[n] == BaseId(i);
      BaseIdIndex(i);
    }
  }

  lemma SameIdSameName(proto: seq<Assignment>, m: string, n: string, id: nat)
    requires GoodProto(proto)
    requires FromSaved(proto, m, id) || FromPlaceholder(proto, m, id)
    requires FromSaved(proto, n, id) || FromPlaceholder(proto, n, id)
    ensures m == n
  {
    hide PlaceholderName, BaseId, PlaceOf;
    if FromSaved(proto, m, id) {
      assert PlaceOf(Assignment(m, id).id) in PresentIndices(proto);
    }
    if FromSaved(proto, n, id) {
      assert PlaceOf(Assignment(n, id).id) in PresentIndices(proto);
    }
  }

  // ----- the next run ----------------------------------------------------------------------------------------------

  /** Registrations one after the other; those that fail change nothing. */
  function RegisterAll(r: Registry, names: seq<string>): Registry
    requires AllFit(r)
    decreases |names|
  {
    if names == [] then r
    else
      var rest := RegisterAll(r, names[..|names| - 1]);
      if !AllFit(rest) then rest
      else
        var res := Registered(rest, names[|names| - 1]);
        if res.Ok? then res.value.0 else rest
  }

  predicate AllFit(r: Registry) { forall n :: n in r.ids ==> PlaceOf(r.ids[n]) < |r.blocks| }

  /** The saved names still have their ids, and those not registered again yet are reserved. */
  ghost predicate Reserved(r: Registry, saved: map<string, nat>, done: set<string>) {
    && WellFormed(r)
    && forall n :: n in saved ==> n in r.ids && r.ids[n] == saved[n] && (n !in done ==> !IsRegistered(r, n))
  }

  lemma RegisterReserved(r: Registry, saved: map<string, nat>, done: set<string>, name: string)
    requires Reserved(r, saved, done) && name !in done
    ensures var res := Registered(r, name);
      && Reserved(if res.Ok? then res.value.0 else r, saved, done + {name})
      && (name in saved ==> res.Ok? && res.value.1 == saved[name])
      && (name !in saved && res.Ok? ==> forall n :: n in saved ==> saved[n] != res.value.1)
  {
    hide BaseId, PlaceOf;
    RegisterKeeps(r, name);
    if Registered(r, name).Ok? { OthersStay(r, name); }
  }

  lemma OthersStay(r: Registry, name: string)
    requires WellFormed(r) && Registered(r, name).Ok?
    ensures var r' := Registered(r, name).value.0;
      forall n :: n in r.ids && n != name ==>
        && n in r'.ids && r'.ids[n] == r.ids[n]
        && PlaceOf(r.ids[n]) < |r'.blocks| && r'.blocks[PlaceOf(r.ids[n])] == r.blocks[PlaceOf(r.ids[n])]
  {
    hide BaseId, PlaceOf;
  }

  lemma {:induction false} ReservedThroughout(r: Registry, saved: map<string, nat>, names: seq<string>)
    requires Reserved(r, saved, {}) && Distinct(names)
    ensures AllFit(r) && Reserved(RegisterAll(r, names), saved, Elements(names))
    decreases |names|
  {
    hide BaseId, PlaceOf, Registered;
    if names != [] {
      var k := |names| - 1;
      ReservedThroughout(r, saved, names[..k]);
      RegisterReserved(RegisterAll(r, names[..k]), saved, Elements(names[..k]), names[k]);
      assert names == names[..k] + [names[k]];
      assert Elements(names) == Elements(names[..k]) + {names[k]};
    }
  }

  /** The names that were registered when the registry was saved, with their ids. */
  ghost function SavedIds(r: Registry): map<string, nat>
    requires WellFormed(r)
  {
    map n | n in r.ids && IsRegistered(r, n) :: r.ids[n]
  }

  /** After saving and loading, whatever is registered again in whatever order: a name that was registered before gets
      the id that it had, and any other name gets an id that no such name had. */
  lemma IdsSurviveRestart(r: Registry, names: seq<string>, k: nat)
    requires WellFormed(r) && Distinct(names) && k < |names|
    ensures (forall i :: 0 <= i < |r.blocks| ==> r.blocks[i].id < U32_COUNT) && FromProto(ToProto(r.blocks)).Ok?
    ensures
      var loaded := FromProto(ToProto(r.blocks)).value;
      && AllFit(loaded) && AllFit(RegisterAll(loaded, names[..k]))
      && var res := Registered(RegisterAll(loaded, names[..k]), names[k]);
      && (names[k] in SavedIds(r) ==> res.Ok? && res.value.1 == SavedIds(r)[names[k]])
      && (names[k] !in SavedIds(r) && res.Ok? ==> forall n :: n in SavedIds(r) ==> SavedIds(r)[n] != res.value.1)
  {
    hide BaseId, PlaceOf, ToProto, FromProto, Registered;
    SavedExactly(r);
    LoadedExactly(ToProto(r.blocks));
    var loaded := FromProto(ToProto(r.blocks)).value;
    forall n | n in SavedIds(r) ensures n in loaded.ids && loaded.ids[n] == SavedIds(r)[n] {
      assert Assignment(n, r.ids[n]) in ToProto(r.blocks);
    }
    assert Reserved(loaded, SavedIds(r), {});
    ReservedThroughout(loaded, SavedIds(r), names[..k]);
    RegisterReserved(RegisterAll(loaded, names[..k]), SavedIds(r), Elements(names[..k]), names[k]);
  }

  lemma {:induction false} MaxIndexAtMost(proto: seq<Assignment>, n: nat)
    requires forall a :: a in proto ==> PlaceOf(a.id) <= n
    ensures MaxIndex(proto) <= n
  {
    hide PlaceOf;
    if proto != [] {
      var k := |proto| - 1;
      MaxIndexAtMost(proto[..k], n);
      assert proto[k] in proto;
    }
  }

  lemma MaxIndexAppend(front: seq<Assignment>, last: Assignment)
    requires MaxIndex(front) <= PlaceOf(last.id)
    ensures MaxIndex(front + [last]) == PlaceOf(last.id)
  {
    hide PlaceOf;
    assert (front + [last])[..|front|] == front;
  }

  lemma SavedIndex(blocks: seq<BlockType>, a: Assignment)
    requires forall i :: 0 <= i < |blocks| ==> blocks[i].id == BaseId(i) < U32_COUNT
    ensures a in ToProto(blocks) ==> PlaceOf(a.id) < |blocks|
  {
    hide BaseId, PlaceOf, ToProto;
    ToProtoExact(blocks, a);
    forall i: nat | i < |blocks| ensures PlaceOf(blocks[i].id) == i { BaseIdIndex(i); }
  }

  lemma {:induction false} SavedMaxIndex(blocks: seq<BlockType>)
    requires forall i :: 0 <= i < |blocks| ==> blocks[i].id == BaseId(i) < U32_COUNT
    requires blocks != [] && !blocks[|blocks| - 1].isUnknown
    ensures MaxIndex(ToProto(blocks)) == |blocks| - 1
  {
    hide BaseId, PlaceOf, MaxIndex;
    var n := |blocks| - 1;
    var front, last := ToProto(blocks[..n]), Assignment(blocks[n].shortName, blocks[n].id);
    assert ToProto(blocks) == front + [last];
    BaseIdIndex(n);
    forall a | a in front ensures PlaceOf(a.id) <= n { SavedIndex(blocks[..n], a); }
    MaxIndexAtMost(front, n);
    MaxIndexAppend(front, last);
  }

  lemma {:induction false} SavedButLast(blocks: seq<BlockType>)
    requires forall i :: 0 <= i < |blocks| ==> blocks[i].id < U32_COUNT
    requires blocks != [] && blocks[|blocks| - 1].isUnknown
    ensures ToProto(blocks) == ToProto(blocks[..|blocks| - 1])
  {
  }

  /** A name that is not registered again in a run is not saved either: if it had the last id, the next new name in the
      run after that gets this id, and with it the first name's blocks on the map. See `ReusedExactly` for the rest. */
  lemma ForgottenIdIsReused(r: Registry, lost: string, name: string)
    requires WellFormed(r) && |r.blocks| >= 2 && !r.blocks[|r.blocks| - 2].isUnknown
    requires lost in r.ids && !IsRegistered(r, lost) && PlaceOf(r.ids[lost]) == |r.blocks| - 1
    ensures (forall i :: 0 <= i < |r.blocks| ==> r.blocks[i].id < U32_COUNT) && FromProto(ToProto(r.blocks)).Ok?
    ensures
      var loaded := FromProto(ToProto(r.blocks)).value;
      && AllFit(loaded)
      && (name !in loaded.ids ==> Registered(loaded, name).Ok? && Registered(loaded, name).value.1 == r.ids[lost])
  {
    hide BaseId, PlaceOf, ToProto;
    var n := |r.blocks| - 1;
    SavedExactly(r);
    LoadedExactly(ToProto(r.blocks));
    SavedButLast(r.blocks);
    SavedMaxIndex(r.blocks[..n]);
    FitsBelow(n);
  }

  lemma FitsBelow(n: nat)
    ensures BaseId(n + 1) <= U32_COUNT ==> BaseId(n) < U32_COUNT
  {
  }

  /** How many of the names are not known yet. */
  function NewCount(r: Registry, names: seq<string>): nat {
    if names == [] then 0
    else NewCount(r, names[..|names| - 1]) + if names[|names| - 1] in r.ids then 0 else 1
  }

  const MAX_BLOCKS: nat := 0x10_0000

  /** Registering changes no id of a known name and appends a block for each new name, as long as there is room. */
  lemma {:induction false} GrowsByNew(r: Registry, names: seq<string>)
    requires WellFormed(r) && Distinct(names)
    ensures AllFit(r)
    ensures var after := RegisterAll(r, names);
      && WellFormed(after)
      && |after.blocks| == Min(MAX_BLOCKS, |r.blocks| + NewCount(r, names))
      && (forall n :: n in r.ids ==> n in after.ids && after.ids[n] == r.ids[n])
      && (forall n :: n in after.ids ==> n in r.ids || n in names)
    decreases |names|
  {
    hide Registered, WellFormed, RegisterAll, NewCount, Distinct, AllFit;
    SizeFits(r);
    UnfoldAll(r, names);
    if names != [] {
      var k := |names| - 1;
      DistinctFront(names);
      GrowsByNew(r, names[..k]);
      RegisterGrows(RegisterAll(r, names[..k]), names[k]);
    }
  }

  lemma UnfoldAll(r: Registry, names: seq<string>)
    requires AllFit(r)
    ensures names == [] ==> RegisterAll(r, names) == r && NewCount(r, names) == 0
    ensures names != [] ==>
              var k := |names| - 1;
              var rest := RegisterAll(r, names[..k]);
              && NewCount(r, names) == NewCount(r, names[..k]) + (if names[k] in r.ids then 0 else 1)
              && (AllFit(rest) ==>
                    var res := Registered(rest, names[k]);
                    RegisterAll(r, names) == if res.Ok? then res.value.0 else rest)
  {
  }

  lemma DistinctFront(names: seq<string>)
    requires Distinct(names) && names != []
    ensures var k := |names| - 1;
      && Distinct(names[..k]) && names[k] !in names[..k]
      && forall n :: n in names <==> n in names[..k] || n == names[k]
  {
    assert names == names[..|names| - 1] + [names[|names| - 1]];
  }

  lemma RegisterGrows(r: Registry, name: string)
    requires WellFormed(r)
    ensures AllFit(r)
    ensures var res := Registered(r, name);
      var after := if res.Ok? then res.value.0 else r;
      && WellFormed(after)
      && |after.blocks| == Min(MAX_BLOCKS, |r.blocks| + if name in r.ids then 0 else 1)
      && (forall n :: n in r.ids ==> n in after.ids && after.ids[n] == r.ids[n])
      && (forall n :: n in after.ids ==> n in r.ids || n == name)
  {
    hide BaseId, PlaceOf, Registered;
    SizeFits(r);
    RegisterKeeps(r, name);
    SizeAfter(r, name);
  }

  lemma SizeFits(r: Registry)
    requires WellFormed(r)
    ensures AllFit(r) && |r.blocks| <= MAX_BLOCKS
  {
  }

  lemma SizeAfter(r: Registry, name: string)
    requires WellFormed(r)
    ensures var res := Registered(r, name);
      && (name in r.ids && res.Ok? ==> |res.value.0.blocks| == |r.blocks| && res.value.1 == r.ids[name])
      && (name !in r.ids ==>
            (res.Ok? <==> |r.blocks| < MAX_BLOCKS)
            && (res.Ok? ==> |res.value.0.blocks| == |r.blocks| + 1 && res.value.1 == BaseId(|r.blocks|)))
  {
  }

  lemma BaseIdInjective(i: nat, j: nat)
    ensures BaseId(i) == BaseId(j) <==> i == j
  {
  }

  // ----- names of placeholders -------------------------------------------------------------------------------------

  lemma HexDigitsDiffer(m: nat, n: nat)
    requires m < 16 && n < 16 && HEX_DIGITS[m] == HEX_DIGITS[n]
    ensures m == n
  {
  }

  lemma {:induction false} HexDiffers(m: nat, n: nat)
    requires Hex(m) == Hex(n)
    ensures m == n
    decreases m + n
  {
    HexEnds(m);
    HexEnds(n);
    HexDigitsDiffer(m % 16, n % 16);
    if m >= 16 && n >= 16 {
      var a, b := Hex(m), Hex(n);
      assert a[..|a| - 1] == b[..|b| - 1];
      HexDiffers(m / 16, n / 16);
    }
  }

  /** The last digit, and what is before it. */
  lemma HexEnds(n: nat)
    ensures Hex(n) != [] && Hex(n)[|Hex(n)| - 1] == HEX_DIGITS[n % 16]
    ensures n < 16 <==> |Hex(n)| == 1
    ensures n >= 16 ==> Hex(n)[..|Hex(n)| - 1] == Hex(n / 16)
    decreases n
  {
    if n >= 16 { HexEnds(n / 16); }
  }

  lemma PlaceholdersDiffer(i: nat, j: nat)
    requires PlaceholderName(i) == PlaceholderName(j)
    ensures i == j
  {
    var prefix := "by_id:0x";
    assert PlaceholderName(i)[|prefix|..] == Hex(BaseId(i)) && PlaceholderName(j)[|prefix|..] == Hex(BaseId(j));
    HexDiffers(BaseId(i), BaseId(j));
  }

  lemma {:induction false} PlaceholderIdsHave(present: set<nat>, k: nat, i: nat)
    requires i < k && i !in present
    ensures PlaceholderName(i) in PlaceholderIds(present, k)
    ensures PlaceholderIds(present, k)[PlaceholderName(i)] == BaseId(i)
  {
    hide PlaceholderName, BaseId;
    if i < k - 1 {
      PlaceholderIdsHave(present, k - 1, i);
      if PlaceholderName(k - 1) == PlaceholderName(i) { PlaceholdersDiffer(k - 1, i); }
    }
  }

  predicate IsSavedName(proto: seq<Assignment>, name: string) { exists a :: a in proto && a.shortName == name }

  /** A name known from the load has the id of a place without a saved block exactly if it is the name of the place's
      placeholder, and not also the name of a saved block. */
  lemma PlaceholderHasPlace(proto: seq<Assignment>, place: nat, name: string)
    requires GoodProto(proto) && place !in PresentIndices(proto)
    ensures FromProto(proto).Ok?
    ensures var ids := FromProto(proto).value.ids;
      name in ids && ids[name] == BaseId(place) <==>
        place <= MaxIndex(proto) && name == PlaceholderName(place) && !IsSavedName(proto, name)
  {
    hide PlaceholderName, BaseId, PlaceOf, Assigned, PlaceholderIds, PresentIndices, MaxIndex;
    var k := MaxIndex(proto) + 1;
    var reserved, ids := PlaceholderIds(PresentIndices(proto), k), FromProto(proto).value.ids;
    AssignedExact(reserved, proto, name);
    if name in ids && ids[name] == BaseId(place) {
      NameIsKnown(proto, name);
      BaseIdIndex(place);
      PresentHas(proto);
    }
    if place <= MaxIndex(proto) && name == PlaceholderName(place) && !IsSavedName(proto, name) {
      PlaceholderIdsHave(PresentIndices(proto), k, place);
    }
  }

  lemma PresentHas(proto: seq<Assignment>)
    ensures forall a :: a in proto ==> PlaceOf(a.id) in PresentIndices(proto)
  {
    hide PlaceOf;
  }

  /** In the run after one in which a name was not registered again, whatever registers in whatever order: a new name
      gets the first name's id exactly if that is the next place after the last saved one and the new names before it;
      a name that is known from the load gets it exactly if it is the name of the placeholder and of no saved block. */
  lemma ReusedExactly(r: Registry, lost: string, names: seq<string>, k: nat)
    requires WellFormed(r) && lost in r.ids && !IsRegistered(r, lost)
    requires Distinct(names) && k < |names|
    ensures (forall i :: 0 <= i < |r.blocks| ==> r.blocks[i].id < U32_COUNT) && FromProto(ToProto(r.blocks)).Ok?
    ensures
      var proto := ToProto(r.blocks);
      var loaded, place := FromProto(proto).value, PlaceOf(r.ids[lost]);
      && AllFit(loaded) && AllFit(RegisterAll(loaded, names[..k]))
      && var res := Registered(RegisterAll(loaded, names[..k]), names[k]);
      && (names[k] !in loaded.ids && res.Ok? ==>
            (res.value.1 == r.ids[lost] <==> place == MaxIndex(proto) + 1 + NewCount(loaded, names[..k])))
      && (names[k] in loaded.ids ==>
            res.Ok? && (res.value.1 == r.ids[lost] <==>
              place <= MaxIndex(proto) && names[k] == PlaceholderName(place) && !IsSavedName(proto, names[k])))
      && (place <= MaxIndex(proto) && names[k] == PlaceholderName(place) && !IsSavedName(proto, names[k]) ==>
            names[k] in loaded.ids)
  {
    hide BaseId, PlaceOf, ToProto, FromProto, Registered, PlaceholderName, MaxIndex, Assigned, PlaceholderIds,
      PresentIndices, IsSavedName;
    SavedExactly(r);
    var proto := ToProto(r.blocks);
    LoadedExactly(proto);
    LoadedSize(proto);
    var loaded, place := FromProto(proto).value, PlaceOf(r.ids[lost]);
    GrowsByNew(loaded, names[..k]);
    var before := RegisterAll(loaded, names[..k]);
    SizeFits(before);
    SizeAfter(before, names[k]);
    assert names[k] !in names[..k];
    BaseIdInjective(|before.blocks|, place);
    NotPresent(r, lost);
    PlaceholderHasPlace(proto, place, names[k]);
    if names[k] in loaded.ids {
      LoadedIsReserved(loaded);
      ReservedThroughout(loaded, loaded.ids, names[..k]);
      RegisterReserved(before, loaded.ids, Elements(names[..k]), names[k]);
    }
  }

  lemma LoadedSize(proto: seq<Assignment>)
    requires FromProto(proto).Ok?
    ensures |FromProto(proto).value.blocks| == MaxIndex(proto) + 1
  {
  }

  /** Nothing that is loaded is registered yet. */
  lemma LoadedIsReserved(loaded: Registry)
    requires WellFormed(loaded) && forall i :: 0 <= i < |loaded.blocks| ==> loaded.blocks[i].isUnknown
    ensures Reserved(loaded, loaded.ids, {})
  {
  }

  /** The place of a name that is not registered is not among the saved ones. */
  lemma NotPresent(r: Registry, lost: string)
    requires WellFormed(r) && lost in r.ids && !IsRegistered(r, lost)
    requires forall i :: 0 <= i < |r.blocks| ==> r.blocks[i].id < U32_COUNT
    ensures PlaceOf(r.ids[lost]) !in PresentIndices(ToProto(r.blocks))
  {
    hide BaseId, ToProto, PlaceOf;
    SavedExactly(r);
    var proto := ToProto(r.blocks);
    forall a | a in proto ensures PlaceOf(a.id) != PlaceOf(r.ids[lost]) {
      assert IsRegistered(r, a.shortName) && r.ids[a.shortName] == a.id;
    }
  }

  lemma {:induction false} AllNewCount(r: Registry, names: seq<string>)
    requires forall n :: n in names ==> n !in r.ids
    ensures NewCount(r, names) == |names|
  {
    if names != [] { AllNewCount(r, names[..|names| - 1]); }
  }

  /** If the place is behind all saved ones, as many new names as it takes do reach it. */
  lemma ReusedIfBehindSaved(r: Registry, lost: string, names: seq<string>)
    requires WellFormed(r) && lost in r.ids && !IsRegistered(r, lost) && Distinct(names)
    requires forall i :: 0 <= i < |r.blocks| ==> r.blocks[i].id < U32_COUNT
    requires PlaceOf(r.ids[lost]) == MaxIndex(ToProto(r.blocks)) + |names| && names != []
    requires FromProto(ToProto(r.blocks)).Ok? && forall n :: n in names ==> n !in FromProto(ToProto(r.blocks)).value.ids
    ensures
      var loaded, k := FromProto(ToProto(r.blocks)).value, |names| - 1;
      && AllFit(loaded) && AllFit(RegisterAll(loaded, names[..k]))
      && var res := Registered(RegisterAll(loaded, names[..k]), names[k]);
      res.Ok? && res.value.1 == r.ids[lost]
  {
    hide BaseId, PlaceOf, ToProto, Registered, PlaceholderName, MaxIndex, Assigned, PlaceholderIds, PresentIndices;
    var k := |names| - 1;
    ReusedExactly(r, lost, names, k);
    var loaded := FromProto(ToProto(r.blocks)).value;
    LoadedExactlyHere(r);
    GrowsByNew(loaded, names[..k]);
    AllNewCount(loaded, names[..k]);
    SizeFits(r);
    SizeAfter(RegisterAll(loaded, names[..k]), names[k]);
    assert names[k] in names && names[k] !in names[..k];
  }

  lemma LoadedExactlyHere(r: Registry)
    requires WellFormed(r) && forall i :: 0 <= i < |r.blocks| ==> r.blocks[i].id < U32_COUNT
    ensures FromProto(ToProto(r.blocks)).Ok? && WellFormed(FromProto(ToProto(r.blocks)).value)
  {
    hide ToProto, FromProto;
    SavedExactly(r);
    LoadedExactly(ToProto(r.blocks));
  }
}
