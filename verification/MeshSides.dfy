/** The sides between touching blocks (`mesh_chunk`, cuberef_client/src/cube_renderer.rs). */
module MeshSides {
  import opened Wrappers
  import opened Coordinates
  import opened CubeFaces
  import opened Meshing

  /** A block is next to another, on its side `s`. */
  predicate Touches(a: BlockCoordinate, s: Side, b: BlockCoordinate) {
    match s
    case XMinus => b == a.(x := b.x) && b.x == a.x - 1
    case XPlus => b == a.(x := b.x) && b.x == a.x + 1
    case YMinus => b == a.(y := b.y) && b.y == a.y - 1
    case YPlus => b == a.(y := b.y) && b.y == a.y + 1
    case ZMinus => b == a.(z := b.z) && b.z == a.z - 1
    case ZPlus => b == a.(z := b.z) && b.z == a.z + 1
  }

  function TypeOf(defs: BlockDefs, chunks: ChunkMap, a: BlockCoordinate): BlockDef
    requires ChunkOf(a) in chunks
  {
    defs.Get(chunks[ChunkOf(a)][IndexOf(a)])
  }

  /** The mesh of a block's chunk has no face, of whatever texture, on a side of the block. */
  ghost predicate NoSide(defs: BlockDefs, chunks: ChunkMap, a: BlockCoordinate, s: Side)
    requires InBounds(ChunkOf(a))
  {
    var mesh := MeshOf(defs, chunks, ChunkOf(a));
    forall texture: string, buffers: Option<CubeFaces.Buffers> ::
      buffers == mesh.solidOpaque || buffers == mesh.transparent || buffers == mesh.translucent ==>
        !Shows(buffers, Face(OffsetOf(a), s, texture))
  }

  predicate SeesThrough(m: RenderMode) { m == Transparent || m == Translucent }

  predicate Hides(a: BlockDef, b: BlockDef) {
    || (SeesThrough(ModeOf(a)) && Alike(a, b))
    || ((ModeOf(a) == SolidOpaque || ModeOf(a) == Translucent) && ModeOf(b) == SolidOpaque)
  }

  lemma SideHidden(defs: BlockDefs, chunks: ChunkMap, a: BlockCoordinate, s: Side, b: BlockCoordinate)
    requires InBounds(ChunkOf(a)) && ChunkOf(a) in chunks && ChunkOf(b) in chunks && Touches(a, s, b)
    requires Hides(TypeOf(defs, chunks, a), TypeOf(defs, chunks, b))
    ensures NoSide(defs, chunks, a, s)
  {
    hide MeshOf, Shows, InBounds, Belongs;
    var c := ChunkOf(a);
    MeshShowsRight(defs, chunks, c);
    forall texture: string, pass: Pass ensures !Belongs(defs, chunks, pass, c, Face(OffsetOf(a), s, texture)) {
      SideNowhere(defs, chunks, a, s, b, pass, texture);
    }
  }

  lemma SideNowhere(
    defs: BlockDefs, chunks: ChunkMap, a: BlockCoordinate, s: Side, b: BlockCoordinate, pass: Pass, texture: string)
    requires InBounds(ChunkOf(a)) && ChunkOf(a) in chunks && ChunkOf(b) in chunks && Touches(a, s, b)
    requires Hides(TypeOf(defs, chunks, a), TypeOf(defs, chunks, b))
    ensures !Belongs(defs, chunks, pass, ChunkOf(a), Face(OffsetOf(a), s, texture))
  {
    hide InBounds, ChunkOf, BlockIn, AsIndex;
    BlockInItself(a);
    assert IndexOf(a) == AsIndex(OffsetOf(a));
    assert Beside(defs, chunks, a, s) == Some(TypeOf(defs, chunks, b));
  }

  lemma BlockInItself(a: BlockCoordinate)
    ensures InBounds(ChunkOf(a)) && BlockIn(ChunkOf(a), OffsetOf(a)) == a
  {
    SplitJoin(a);
  }

  /** Between two touching blocks of one transparent or translucent type there is no side, in whichever of the chunks
      the two are and whatever variants of the type; and none of a solid or translucent block against an opaque one. */
  lemma NoSideBetween(defs: BlockDefs, chunks: ChunkMap, a: BlockCoordinate, s: Side, b: BlockCoordinate)
    requires ChunkOf(a) in chunks && ChunkOf(b) in chunks && Touches(a, s, b)
    ensures InBounds(ChunkOf(a)) && InBounds(ChunkOf(b))
    ensures var ta, tb := TypeOf(defs, chunks, a), TypeOf(defs, chunks, b);
      && (SeesThrough(ModeOf(ta)) && ModeOf(ta) == ModeOf(tb) && Alike(ta, tb) ==>
            NoSide(defs, chunks, a, s) && NoSide(defs, chunks, b, Opposite(s)))
      && (ModeOf(tb) == SolidOpaque && (ModeOf(ta) == SolidOpaque || ModeOf(ta) == Translucent) ==>
            NoSide(defs, chunks, a, s))
      && (ModeOf(ta) == ModeOf(tb) == SolidOpaque ==> NoSide(defs, chunks, b, Opposite(s)))
  {
    hide NoSide, TypeOf, ChunkOf;
    SplitJoin(a);
    SplitJoin(b);
    assert Touches(b, Opposite(s), a);
    var ta, tb := TypeOf(defs, chunks, a), TypeOf(defs, chunks, b);
    if SeesThrough(ModeOf(ta)) && Alike(ta, tb) {
      SideHidden(defs, chunks, a, s, b);
      if SeesThrough(ModeOf(tb)) { SideHidden(defs, chunks, b, Opposite(s), a); }
    }
    if ModeOf(tb) == SolidOpaque && (ModeOf(ta) == SolidOpaque || ModeOf(ta) == Translucent) {
      SideHidden(defs, chunks, a, s, b);
      if ModeOf(ta) == SolidOpaque { SideHidden(defs, chunks, b, Opposite(s), a); }
    }
  }
}
