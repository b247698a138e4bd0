/** What a mesh depends on: a change shows in few chunks only (cuberef_client/src/cube_renderer.rs,
    cuberef_client/src/net_client/client_context.rs). */
module MeshLocality {
  import opened Wrappers
  import opened Coordinates
  import opened CubeFaces
  import opened Meshing

  /** All that a chunk's mesh is made from is the same in two maps. */
  ghost predicate LooksSame(defs: BlockDefs, a: ChunkMap, b: ChunkMap, c: ChunkCoordinate)
    requires InBounds(c)
  {
    forall o: ChunkOffset, s: Side :: SideSame(defs, a, b, BlockIn(c, o), s)
  }

  predicate SideSame(defs: BlockDefs, a: ChunkMap, b: ChunkMap, at: BlockCoordinate, s: Side) {
    && TypeAt(defs, a, at) == TypeAt(defs, b, at)
    && forall pass: Pass :: Visible(defs, a, pass, at, s) == Visible(defs, b, pass, at, s)
  }

  lemma {:induction false} BlockFacesSame(
    defs: BlockDefs, a: ChunkMap, b: ChunkMap, pass: Pass, c: ChunkCoordinate, o: ChunkOffset, k: nat)
    requires InBounds(c) && k <= 6 && LooksSame(defs, a, b, c)
    ensures BlockFaces(defs, a, pass, c, o, k) == BlockFaces(defs, b, pass, c, o, k)
    decreases 6 - k
  {
    hide TypeAt, Visible, BlockIn;
    if k < 6 {
      BlockFacesSame(defs, a, b, pass, c, o, k + 1);
      assert SideSame(defs, a, b, BlockIn(c, o), SIDES[k]);
    }
  }

  lemma {:induction false} PassFacesSame(
    defs: BlockDefs, a: ChunkMap, b: ChunkMap, pass: Pass, c: ChunkCoordinate, n: nat)
    requires InBounds(c) && n <= CHUNK_VOLUME && LooksSame(defs, a, b, c)
    ensures PassFaces(defs, a, pass, c, n) == PassFaces(defs, b, pass, c, n)
    decreases CHUNK_VOLUME - n
  {
    hide BlockFaces, LooksSame;
    if n < CHUNK_VOLUME {
      BlockFacesSame(defs, a, b, pass, c, OffsetInLoops(n), 0);
      PassFacesSame(defs, a, b, pass, c, n + 1);
    }
  }

  lemma MeshSame(defs: BlockDefs, a: ChunkMap, b: ChunkMap, c: ChunkCoordinate)
    requires InBounds(c) && LooksSame(defs, a, b, c)
    ensures MeshOf(defs, a, c) == MeshOf(defs, b, c)
  {
    hide LooksSame;
    PassFacesSame(defs, a, b, SolidPass, c, 0);
    PassFacesSame(defs, a, b, TransparentPass, c, 0);
    PassFacesSame(defs, a, b, TranslucentPass, c, 0);
  }

  // ----- a chunk that comes, changes or goes -----------------------------------------------------------------------

  function NextChunk(c: ChunkCoordinate, s: Side): Option<ChunkCoordinate> {
    ChunkTryDelta(c, Delta(s).x, Delta(s).y, Delta(s).z)
  }

  /** A chunk and its neighbors. */
  function Around(c: ChunkCoordinate): set<ChunkCoordinate> {
    {c} + set s: Side | NextChunk(c, s).Some? :: NextChunk(c, s).value
  }

  /** The block next to one of a chunk is in that chunk or in the next one. */
  lemma NextToIsNear(b: BlockCoordinate, s: Side)
    requires NextTo(b, s).Some?
    ensures var d := ChunkOf(NextTo(b, s).value); d == ChunkOf(b) || NextChunk(d, Opposite(s)) == Some(ChunkOf(b))
    ensures NextTo(NextTo(b, s).value, Opposite(s)) == Some(b)
  {
    match s
    case XMinus =>
    case XPlus =>
    case YMinus =>
    case YPlus =>
    case ZMinus =>
    case ZPlus =>
  }

  ghost predicate SameButChunk(a: ChunkMap, b: ChunkMap, d: ChunkCoordinate) {
    forall c: ChunkCoordinate :: c != d ==> (c in a <==> c in b) && (c in a ==> a[c] == b[c])
  }

  /** When one chunk comes, changes or goes, only its own mesh and those of its neighbors can change. */
  lemma ChunkShowsAround(defs: BlockDefs, a: ChunkMap, b: ChunkMap, d: ChunkCoordinate, c: ChunkCoordinate)
    requires InBounds(c) && SameButChunk(a, b, d) && c !in Around(d)
    ensures MeshOf(defs, a, c) == MeshOf(defs, b, c)
  {
    hide IndexOf, MeshOf;
    forall o: ChunkOffset, s: Side ensures SideSame(defs, a, b, BlockIn(c, o), s) {
      var at := BlockIn(c, o);
      if NextTo(at, s).Some? {
        NextToIsNear(at, s);
      }
      hide ChunkOf, NextTo, NextChunk, BlockIn;
    }
    MeshSame(defs, a, b, c);
  }

  // ----- blocks that change ----------------------------------------------------------------------------------------

  /** The chunks that are meshed anew when a block changes: its own, and those of the blocks next to it. */
  function RemeshFor(b: BlockCoordinate): set<ChunkCoordinate> {
    {ChunkOf(b)} + set s: Side | NextTo(b, s).Some? :: ChunkOf(NextTo(b, s).value)
  }

  ghost predicate SameButBlocks(a: ChunkMap, b: ChunkMap, changed: set<BlockCoordinate>) {
    && a.Keys == b.Keys
    && forall at: BlockCoordinate :: (ChunkOf(at) in a && at !in changed ==>
         a[ChunkOf(at)][IndexOf(at)] == b[ChunkOf(at)][IndexOf(at)])
  }

  /** When blocks change, only the meshes of their chunks and of the chunks of the blocks next to them can change. */
  lemma BlocksShowNearby(
    defs: BlockDefs, a: ChunkMap, b: ChunkMap, changed: set<BlockCoordinate>, c: ChunkCoordinate)
    requires InBounds(c) && SameButBlocks(a, b, changed)
    requires forall at :: at in changed ==> c !in RemeshFor(at)
    ensures MeshOf(defs, a, c) == MeshOf(defs, b, c)
  {
    hide IndexOf, MeshOf, ChunkOf, NextTo;
    forall o: ChunkOffset, s: Side ensures SideSame(defs, a, b, BlockIn(c, o), s) {
      var at := BlockIn(c, o);
      assert c in RemeshFor(at);
      if NextTo(at, s).Some? {
        NextToIsNear(at, s);
        var n := NextTo(at, s).value;
        assert NextTo(n, Opposite(s)) == Some(at);
        assert c in RemeshFor(n);
      }
    }
    MeshSame(defs, a, b, c);
  }
}
