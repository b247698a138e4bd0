/** The mesh of a chunk: which faces are drawn, and what that depends on
    (`mesh_chunk`, cuberef_client/src/cube_renderer.rs). */
module Meshing {
  import opened Wrappers
  import opened Coordinates
  import opened MapChunks
  import opened CubeFaces
  import opened FaceBuffers

  datatype RenderMode = Unspecified | SolidOpaque | Transparent | Translucent

  datatype CubeInfo = CubeInfo(mode: RenderMode, left: string, bottom: string, top: string, front: string, back: string)

  datatype BlockDef = BlockDef(id: BlockId, cube: Option<CubeInfo>)

  /** The block types by index, and the one that stands in for unknown ones. */
  datatype BlockDefs = BlockDefs(defs: seq<Option<BlockDef>>, fallback: BlockDef)
  {
    function Get(id: BlockId): BlockDef {
      var index := id / 4096;
      if index < |defs| && defs[index].Some? then defs[index].value else fallback
    }
  }

  function BaseId(id: BlockId): nat { id - id % 4096 }

  type BlockIds = ids: seq<BlockId> | |ids| == CHUNK_VOLUME witness seq(CHUNK_VOLUME, _ => 0)

  /** The chunks that the client has. */
  type ChunkMap = map<ChunkCoordinate, BlockIds>

  datatype Pass = SolidPass | TransparentPass | TranslucentPass

  // ----- which faces are drawn -------------------------------------------------------------------------------------

  /** `include_block_when` of the three passes. */
  predicate Includes(pass: Pass, block: BlockDef) {
    && block.cube.Some?
    && block.cube.value.mode == (match pass
                                 case SolidPass => SolidOpaque
                                 case TransparentPass => Transparent
                                 case TranslucentPass => Translucent)
  }

  predicate IsSolid(block: BlockDef) { block.cube.Some? && block.cube.value.mode == SolidOpaque }

  /** `suppress_face_when` of the three passes. */
  predicate Suppresses(pass: Pass, block: BlockDef, neighbor: Option<BlockDef>) {
    neighbor.Some? &&
    match pass
    case SolidPass => IsSolid(neighbor.value)
    case TransparentPass => BaseId(block.id) == BaseId(neighbor.value.id)
    case TranslucentPass => BaseId(block.id) == BaseId(neighbor.value.id) || IsSolid(neighbor.value)
  }

  /** The block next to a block; None at the end of the world. */
  function NextTo(b: BlockCoordinate, s: Side): Option<BlockCoordinate> {
    BlockTryDelta(b, Delta(s).x, Delta(s).y, Delta(s).z)
  }

  /** The block type at a position, if the client has its chunk. */
  function TypeAt(defs: BlockDefs, chunks: ChunkMap, b: BlockCoordinate): Option<BlockDef> {
    if ChunkOf(b) in chunks then Some(defs.Get(chunks[ChunkOf(b)][IndexOf(b)])) else None
  }

  function NeighborType(defs: BlockDefs, chunks: ChunkMap, b: BlockCoordinate, s: Side): Option<BlockDef> {
    var n := NextTo(b, s);
    if n.Some? then TypeAt(defs, chunks, n.value) else None
  }

  /** Whether a side of a block is drawn in a pass. */
  predicate Visible(defs: BlockDefs, chunks: ChunkMap, pass: Pass, b: BlockCoordinate, s: Side) {
    var block := TypeAt(defs, chunks, b);
    && block.Some?
    && Includes(pass, block.value)
    && !Suppresses(pass, block.value, NeighborType(defs, chunks, b, s))
  }

  /** The source takes the left texture for both sides along x. */
  function Texture(cube: CubeInfo, s: Side): string {
    match s
    case XMinus => cube.left
    case XPlus => cube.left
    case YMinus => cube.bottom
    case YPlus => cube.top
    case ZMinus => cube.front
    case ZPlus => cube.back
  }

  const SIDES: seq<Side> := [XMinus, XPlus, YMinus, YPlus, ZMinus, ZPlus]

  /** The block at an offset of a chunk in bounds. */
  function BlockIn(c: ChunkCoordinate, o: ChunkOffset): (b: BlockCoordinate)
    requires InBounds(c)
    ensures ChunkOf(b) == c && OffsetOf(b) == o
  {
    WithOffsetDefined(c, o);
    JoinSplit(c, o);
    WithOffset(c, o).value
  }

  /** The drawn sides of one block, from the `k`-th side on. */
  function BlockFaces(defs: BlockDefs, chunks: ChunkMap, pass: Pass, c: ChunkCoordinate, o: ChunkOffset, k: nat)
    : seq<Face>
    requires InBounds(c) && k <= 6
    decreases 6 - k, |chunks|
  {
    if k == 6 then []
    else
      var b := BlockIn(c, o);
      var rest := BlockFaces(defs, chunks, pass, c, o, k + 1);
      if Visible(defs, chunks, pass, b, SIDES[k])
      then [Face(o, SIDES[k], Texture(TypeAt(defs, chunks, b).value.cube.value, SIDES[k]))] + rest
      else rest
  }

  /** The `n`-th offset in the order of the loops: z varies fastest. */
  function OffsetInLoops(n: BlockIndex): ChunkOffset { ChunkOffset((n / 256) % 16, (n / 16) % 16, n % 16) }

  /** The drawn faces of a chunk in a pass, from the `n`-th block on. */
  function PassFaces(defs: BlockDefs, chunks: ChunkMap, pass: Pass, c: ChunkCoordinate, n: nat): seq<Face>
    requires InBounds(c) && n <= CHUNK_VOLUME
    decreases CHUNK_VOLUME - n, |chunks|
  {
    if n == CHUNK_VOLUME then []
    else BlockFaces(defs, chunks, pass, c, OffsetInLoops(n), 0) + PassFaces(defs, chunks, pass, c, n + 1)
  }

  /** The buffers of a pass; none when nothing is drawn. */
  function PassMesh(defs: BlockDefs, chunks: ChunkMap, pass: Pass, c: ChunkCoordinate): Option<Buffers>
    requires InBounds(c)
  {
    var buffers := BuffersOf(PassFaces(defs, chunks, pass, c, 0));
    if buffers.vtx == [] then None else Some(buffers)
  }

  datatype Mesh = Mesh(solidOpaque: Option<Buffers>, transparent: Option<Buffers>, translucent: Option<Buffers>)

  function MeshOf(defs: BlockDefs, chunks: ChunkMap, c: ChunkCoordinate): Mesh
    requires InBounds(c)
  {
    Mesh(PassMesh(defs, chunks, SolidPass, c), PassMesh(defs, chunks, TransparentPass, c),
         PassMesh(defs, chunks, TranslucentPass, c))
  }

  // ----- what a mesh is to show ------------------------------------------------------------------------------------

  ghost predicate Shows(buffers: Option<Buffers>, f: Face) { buffers.Some? && HasFace(buffers.value, f) }

  /** The block type at a position; none past the end of the world, and none in a chunk that the client lacks. */
  function TypeNear(defs: BlockDefs, chunks: ChunkMap, x: int, y: int, z: int): Option<BlockDef> {
    if !(I32_MIN <= x <= I32_MAX && I32_MIN <= y <= I32_MAX && I32_MIN <= z <= I32_MAX) then None
    else TypeAt(defs, chunks, BlockCoordinate(x, y, z))
  }

  function Beside(defs: BlockDefs, chunks: ChunkMap, b: BlockCoordinate, s: Side): Option<BlockDef> {
    match s
    case XMinus => TypeNear(defs, chunks, b.x - 1, b.y, b.z)
    case XPlus => TypeNear(defs, chunks, b.x + 1, b.y, b.z)
    case YMinus => TypeNear(defs, chunks, b.x, b.y - 1, b.z)
    case YPlus => TypeNear(defs, chunks, b.x, b.y + 1, b.z)
    case ZMinus => TypeNear(defs, chunks, b.x, b.y, b.z - 1)
    case ZPlus => TypeNear(defs, chunks, b.x, b.y, b.z + 1)
  }

  function ModeOf(block: BlockDef): RenderMode { if block.cube.Some? then block.cube.value.mode else Unspecified }

  /** Two variants of one block type. */
  predicate Alike(a: BlockDef, b: BlockDef) { a.id / 4096 == b.id / 4096 }

  predicate TexturedRight(cube: CubeInfo, f: Face) {
    && (f.side.XMinus? || f.side.XPlus? ==> f.texture == cube.left)
    && (f.side.YMinus? ==> f.texture == cube.bottom) && (f.side.YPlus? ==> f.texture == cube.top)
    && (f.side.ZMinus? ==> f.texture == cube.front) && (f.side.ZPlus? ==> f.texture == cube.back)
  }

  /** A side of a block belongs in the pass of the block's render mode, with the texture of the side, and in no other.
      An opaque block next to it hides it unless the block is transparent; a block of the same type hides it if the
      block is transparent or translucent; nothing else does, and so it is there next to the end of the world or a chunk
      that the client lacks. */
  predicate Belongs(defs: BlockDefs, chunks: ChunkMap, pass: Pass, c: ChunkCoordinate, f: Face)
    requires InBounds(c) && c in chunks
  {
    var block := defs.Get(chunks[c][AsIndex(f.offset)]);
    var n := Beside(defs, chunks, BlockIn(c, f.offset), f.side);
    var hidden, alike := n.Some? && ModeOf(n.value) == SolidOpaque, n.Some? && Alike(block, n.value);
    && block.cube.Some? && TexturedRight(block.cube.value, f)
    && match pass
       case SolidPass => ModeOf(block) == SolidOpaque && !hidden
       case TransparentPass => ModeOf(block) == Transparent && !alike
       case TranslucentPass => ModeOf(block) == Translucent && !alike && !hidden
  }

  /** The buffers have the faces that they had and the sides of one block that belong in the pass. */
  ghost predicate BlockIsAdded(
    defs: BlockDefs, chunks: ChunkMap, pass: Pass, c: ChunkCoordinate, o: ChunkOffset, faces: seq<Face>,
    buffers: Buffers)
    requires InBounds(c) && c in chunks
  {
    forall f: Face :: HasFace(buffers, f) <==> f in faces || (f.offset == o && Belongs(defs, chunks, pass, c, f))
  }

  /** Each side of each block of the chunk is in the buffers of a pass exactly if it belongs there. */
  ghost predicate PassIsRight(
    defs: BlockDefs, chunks: ChunkMap, pass: Pass, c: ChunkCoordinate, buffers: Option<Buffers>)
    requires InBounds(c) && c in chunks
  {
    forall f: Face :: Shows(buffers, f) <==> Belongs(defs, chunks, pass, c, f)
  }

  ghost predicate MeshIsRight(defs: BlockDefs, chunks: ChunkMap, c: ChunkCoordinate, mesh: Mesh)
    requires InBounds(c) && c in chunks
  {
    && PassIsRight(defs, chunks, SolidPass, c, mesh.solidOpaque)
    && PassIsRight(defs, chunks, TransparentPass, c, mesh.transparent)
    && PassIsRight(defs, chunks, TranslucentPass, c, mesh.translucent)
  }

  // ----- the loops -------------------------------------------------------------------------------------------------

  class BlockRenderer {
    const defs: BlockDefs

    constructor (defs: BlockDefs)
      ensures this.defs == defs
    {
      this.defs := defs;
    }

    /** `get_block_maybe_neighbor`: the chunk that is meshed is not looked up again. */
    function GetBlockMaybeNeighbor(
      chunks: ChunkMap, ownIds: BlockIds, ownChunk: ChunkCoordinate, target: BlockCoordinate): (r: Option<BlockDef>)
      ensures ownChunk in chunks && chunks[ownChunk] == ownIds ==> r == TypeAt(defs, chunks, target)
    {
      if ChunkOf(target) == ownChunk then Some(defs.Get(ownIds[IndexOf(target)]))
      else if ChunkOf(target) in chunks then Some(defs.Get(chunks[ChunkOf(target)][IndexOf(target)]))
      else None
    }

    method EmitFullCube(
      chunks: ChunkMap, pass: Pass, c: ChunkCoordinate, o: ChunkOffset, ownIds: BlockIds, block: BlockDef,
      buffers: Buffers, ghost faces: seq<Face>)
      returns (buffers': Buffers)
      requires InBounds(c) && c in chunks && chunks[c] == ownIds && buffers == BuffersOf(faces)
      requires TypeAt(defs, chunks, BlockIn(c, o)) == Some(block) && Includes(pass, block)
      ensures buffers' == BuffersOf(faces + BlockFaces(defs, chunks, pass, c, o, 0))
      ensures BlockIsAdded(defs, chunks, pass, c, o, faces, buffers')
    {
      hide Suppresses, NextTo, Texture, EmitFace, BuffersOf, ChunkOf, IndexOf, WithOffset, InBounds, BlockIsAdded;
      buffers' := buffers;
      ghost var done := faces;
      var coord := BlockIn(c, o);
      for k := 0 to 6
        invariant buffers' == BuffersOf(done)
        invariant done + BlockFaces(defs, chunks, pass, c, o, k) == faces + BlockFaces(defs, chunks, pass, c, o, 0)
      {
        var target := NextTo(coord, SIDES[k]);
        var neighbor :=
          if target.Some? then GetBlockMaybeNeighbor(chunks, ownIds, c, target.value) else None;
        if !Suppresses(pass, block, neighbor) {
          var face := Face(o, SIDES[k], Texture(block.cube.value, SIDES[k]));
          BuffersAppend(done, face);
          buffers' := EmitFace(buffers', face);
          done := done + [face];
        }
      }
      assert done + [] == done;
      BlockAdds(defs, chunks, pass, c, o, faces);
    }

    method MeshChunkSubpass(chunks: ChunkMap, c: ChunkCoordinate, pass: Pass) returns (r: Option<Buffers>)
      requires InBounds(c) && c in chunks
      ensures r == PassMesh(defs, chunks, pass, c) && PassIsRight(defs, chunks, pass, c, r)
    {
      hide BlockFaces, BuffersOf, InBounds, PassFaces, PassIsRight;
      PassShowsRight(defs, chunks, pass, c);
      var buffers := Buffers([], []);
      ghost var done: seq<Face> := [];
      NoBuffers();
      for x := 0 to 16
        invariant buffers == BuffersOf(done)
        invariant done + PassFaces(defs, chunks, pass, c, 256 * x) == PassFaces(defs, chunks, pass, c, 0)
      {
        for y := 0 to 16
          invariant buffers == BuffersOf(done)
          invariant done + PassFaces(defs, chunks, pass, c, 256 * x + 16 * y) == PassFaces(defs, chunks, pass, c, 0)
        {
          for z := 0 to 16
            invariant buffers == BuffersOf(done)
            invariant done + PassFaces(defs, chunks, pass, c, 256 * x + 16 * y + z)
                   == PassFaces(defs, chunks, pass, c, 0)
          {
            var o := ChunkOffset(x, y, z);
            buffers := MeshBlock(chunks, c, o, pass, buffers, done);
            done := NextBlock(defs, chunks, pass, c, o, done);
          }
        }
      }
      NoFacesLeft(defs, chunks, pass, c, done);
      return if buffers.vtx == [] then None else Some(buffers);
    }

    method MeshBlock(
      chunks: ChunkMap, c: ChunkCoordinate, o: ChunkOffset, pass: Pass, buffers: Buffers, ghost faces: seq<Face>)
      returns (buffers': Buffers)
      requires InBounds(c) && c in chunks && buffers == BuffersOf(faces)
      ensures buffers' == BuffersOf(faces + BlockFaces(defs, chunks, pass, c, o, 0))
      ensures BlockIsAdded(defs, chunks, pass, c, o, faces, buffers')
    {
      hide BlockFaces, BuffersOf, InBounds, ChunkOf, WithOffset, Includes, BlockIsAdded;
      BlockAdds(defs, chunks, pass, c, o, faces);
      var ownIds := chunks[c];
      BlockOfOffset(defs, chunks, c, o);
      var block := defs.Get(ownIds[AsIndex(o)]);
      if Includes(pass, block) {
        buffers' := EmitFullCube(chunks, pass, c, o, ownIds, block, buffers, faces);
      } else {
        NothingDrawn(defs, chunks, pass, c, o, 0);
        assert faces + [] == faces;
        buffers' := buffers;
      }
    }

    method MeshChunk(chunks: ChunkMap, c: ChunkCoordinate) returns (mesh: Mesh)
      requires InBounds(c) && c in chunks
      ensures mesh == MeshOf(defs, chunks, c) && MeshIsRight(defs, chunks, c, mesh)
    {
      hide PassMesh, InBounds, PassIsRight;
      var solidOpaque := MeshChunkSubpass(chunks, c, SolidPass);
      var transparent := MeshChunkSubpass(chunks, c, TransparentPass);
      var translucent := MeshChunkSubpass(chunks, c, TranslucentPass);
      mesh := Mesh(solidOpaque, transparent, translucent);
    }
  }

  lemma NextBlock(
    defs: BlockDefs, chunks: ChunkMap, pass: Pass, c: ChunkCoordinate, o: ChunkOffset, done: seq<Face>)
    returns (done': seq<Face>)
    requires InBounds(c)
    ensures done' == done + BlockFaces(defs, chunks, pass, c, o, 0)
    ensures var n := 256 * o.x + 16 * o.y + o.z;
      && n < CHUNK_VOLUME
      && done' + PassFaces(defs, chunks, pass, c, n + 1) == done + PassFaces(defs, chunks, pass, c, n)
  {
    hide BlockFaces;
    LoopOffset(o);
    done' := done + BlockFaces(defs, chunks, pass, c, o, 0);
  }

  lemma NoFacesLeft(defs: BlockDefs, chunks: ChunkMap, pass: Pass, c: ChunkCoordinate, done: seq<Face>)
    requires InBounds(c)
    ensures done + PassFaces(defs, chunks, pass, c, CHUNK_VOLUME) == done
  {
  }

  lemma NoBuffers()
    ensures BuffersOf([]) == Buffers([], [])
  {
  }

  lemma LoopOffset(o: ChunkOffset)
    ensures 256 * o.x + 16 * o.y + o.z < CHUNK_VOLUME && OffsetInLoops(256 * o.x + 16 * o.y + o.z) == o
  {
    var n := 256 * o.x + 16 * o.y + o.z;
    assert n / 16 == 16 * o.x + o.y && n / 256 == o.x;
  }

  lemma BlockOfOffset(defs: BlockDefs, chunks: ChunkMap, c: ChunkCoordinate, o: ChunkOffset)
    requires InBounds(c) && c in chunks
    ensures TypeAt(defs, chunks, BlockIn(c, o)) == Some(defs.Get(chunks[c][AsIndex(o)]))
  {
  }

  lemma NothingDrawn(defs: BlockDefs, chunks: ChunkMap, pass: Pass, c: ChunkCoordinate, o: ChunkOffset, k: nat)
    requires InBounds(c) && k <= 6
    requires var block := TypeAt(defs, chunks, BlockIn(c, o)); block.Some? && !Includes(pass, block.value)
    ensures BlockFaces(defs, chunks, pass, c, o, k) == []
    decreases 6 - k
  {
    if k < 6 { NothingDrawn(defs, chunks, pass, c, o, k + 1); }
  }

  // ----- what is in a mesh -----------------------------------------------------------------------------------------

  function SideNumber(s: Side): nat {
    match s
    case XMinus => 0
    case XPlus => 1
    case YMinus => 2
    case YPlus => 3
    case ZMinus => 4
    case ZPlus => 5
  }

  /** Whether a face is a drawn side of its block, with the texture of that side. */
  predicate IsDrawn(defs: BlockDefs, chunks: ChunkMap, pass: Pass, c: ChunkCoordinate, f: Face)
    requires InBounds(c)
  {
    var b := BlockIn(c, f.offset);
    Visible(defs, chunks, pass, b, f.side) && f.texture == Texture(TypeAt(defs, chunks, b).value.cube.value, f.side)
  }

  lemma {:induction false} BlockFacesExact(
    defs: BlockDefs, chunks: ChunkMap, pass: Pass, c: ChunkCoordinate, o: ChunkOffset, k: nat, f: Face)
    requires InBounds(c) && k <= 6
    ensures f in BlockFaces(defs, chunks, pass, c, o, k) <==>
            f.offset == o && SideNumber(f.side) >= k && IsDrawn(defs, chunks, pass, c, f)
    decreases 6 - k
  {
    hide TypeAt, Includes, Suppresses, NeighborType, BlockIn;
    if k < 6 {
      BlockFacesExact(defs, chunks, pass, c, o, k + 1, f);
      assert SideNumber(f.side) == k <==> f.side == SIDES[k];
    }
  }

  function LoopNumber(o: ChunkOffset): nat { 256 * o.x + 16 * o.y + o.z }

  lemma {:induction false} PassFacesFrom(
    defs: BlockDefs, chunks: ChunkMap, pass: Pass, c: ChunkCoordinate, n: nat, f: Face)
    requires InBounds(c) && n <= CHUNK_VOLUME
    ensures f in PassFaces(defs, chunks, pass, c, n) <==>
            LoopNumber(f.offset) >= n && IsDrawn(defs, chunks, pass, c, f)
    decreases CHUNK_VOLUME - n
  {
    hide IsDrawn, BlockFaces;
    LoopOffset(f.offset);
    if n < CHUNK_VOLUME {
      PassFacesFrom(defs, chunks, pass, c, n + 1, f);
      BlockFacesExact(defs, chunks, pass, c, OffsetInLoops(n), 0, f);
      LoopOffset(OffsetInLoops(n));
      NumberInLoops(n);
    }
  }

  lemma NumberInLoops(n: BlockIndex)
    ensures LoopNumber(OffsetInLoops(n)) == n
  {
    assert n / 256 == (n / 16) / 16;
  }

  /** A pass has exactly the drawn sides of the chunk's blocks: none is missing, and none is hidden. */
  lemma PassFacesExact(defs: BlockDefs, chunks: ChunkMap, pass: Pass, c: ChunkCoordinate, f: Face)
    requires InBounds(c)
    ensures f in PassFaces(defs, chunks, pass, c, 0) <==> IsDrawn(defs, chunks, pass, c, f)
  {
    PassFacesFrom(defs, chunks, pass, c, 0, f);
  }

  /** No side of a block is drawn in two passes. */
  lemma PassesDisjoint(defs: BlockDefs, chunks: ChunkMap, p: Pass, q: Pass, c: ChunkCoordinate, f: Face)
    requires InBounds(c) && f in PassFaces(defs, chunks, p, c, 0) && f in PassFaces(defs, chunks, q, c, 0)
    ensures p == q
  {
    hide PassFaces;
    PassFacesExact(defs, chunks, p, c, f);
    PassFacesExact(defs, chunks, q, c, f);
  }

  /** A mesh shows each side of each block just where it belongs. */
  lemma MeshShowsRight(defs: BlockDefs, chunks: ChunkMap, c: ChunkCoordinate)
    requires InBounds(c) && c in chunks
    ensures MeshIsRight(defs, chunks, c, MeshOf(defs, chunks, c))
  {
    hide PassIsRight, PassMesh, InBounds;
    PassShowsRight(defs, chunks, SolidPass, c);
    PassShowsRight(defs, chunks, TransparentPass, c);
    PassShowsRight(defs, chunks, TranslucentPass, c);
  }

  lemma PassShowsRight(defs: BlockDefs, chunks: ChunkMap, pass: Pass, c: ChunkCoordinate)
    requires InBounds(c) && c in chunks
    ensures PassIsRight(defs, chunks, pass, c, PassMesh(defs, chunks, pass, c))
  {
    hide Belongs, PassMesh, Shows, IsDrawn, InBounds;
    forall f: Face ensures Shows(PassMesh(defs, chunks, pass, c), f) <==> Belongs(defs, chunks, pass, c, f) {
      ShowsDrawn(defs, chunks, pass, c, f);
      DrawnBelongs(defs, chunks, pass, c, f);
    }
  }

  lemma BlockAdds(
    defs: BlockDefs, chunks: ChunkMap, pass: Pass, c: ChunkCoordinate, o: ChunkOffset, faces: seq<Face>)
    requires InBounds(c) && c in chunks
    ensures BlockIsAdded(defs, chunks, pass, c, o, faces, BuffersOf(faces + BlockFaces(defs, chunks, pass, c, o, 0)))
  {
    hide Belongs, BlockFaces, BuffersOf, HasFace, IsDrawn, InBounds;
    var added := BlockFaces(defs, chunks, pass, c, o, 0);
    forall f: Face
      ensures HasFace(BuffersOf(faces + added), f) <==>
              f in faces || (f.offset == o && Belongs(defs, chunks, pass, c, f))
    {
      HasFacesExactly(faces + added, f);
      BlockFacesExact(defs, chunks, pass, c, o, 0, f);
      DrawnBelongs(defs, chunks, pass, c, f);
    }
  }

  lemma DrawnBelongs(defs: BlockDefs, chunks: ChunkMap, pass: Pass, c: ChunkCoordinate, f: Face)
    requires InBounds(c) && c in chunks
    ensures IsDrawn(defs, chunks, pass, c, f) <==> Belongs(defs, chunks, pass, c, f)
  {
    hide Beside, NeighborType, TypeAt, InBounds, AsIndex, BlockIn;
    NeighborIsBeside(defs, chunks, BlockIn(c, f.offset), f.side);
    BlockOfOffset(defs, chunks, c, f.offset);
    AlikeBase(defs.Get(chunks[c][AsIndex(f.offset)]).id);
    var n := Beside(defs, chunks, BlockIn(c, f.offset), f.side);
    if n.Some? { AlikeBase(n.value.id); }
  }

  lemma ShowsDrawn(defs: BlockDefs, chunks: ChunkMap, pass: Pass, c: ChunkCoordinate, f: Face)
    requires InBounds(c)
    ensures Shows(PassMesh(defs, chunks, pass, c), f) <==> IsDrawn(defs, chunks, pass, c, f)
  {
    hide PassFaces, BuffersOf, IsDrawn, HasFace, InBounds;
    var faces := PassFaces(defs, chunks, pass, c, 0);
    PassFacesExact(defs, chunks, pass, c, f);
    HasFacesExactly(faces, f);
    BufferSizes(faces);
  }

  lemma NeighborIsBeside(defs: BlockDefs, chunks: ChunkMap, b: BlockCoordinate, s: Side)
    ensures NeighborType(defs, chunks, b, s) == Beside(defs, chunks, b, s)
  {
    hide TypeAt;
  }

  lemma AlikeBase(id: BlockId)
    ensures BaseId(id) == id / 4096 * 4096
  {
  }
}
