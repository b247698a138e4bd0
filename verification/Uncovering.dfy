/** Sides of blocks that come into view when chunks go (cuberef_client/src/cube_renderer.rs). */
module Uncovering {
  import opened Coordinates
  import opened CubeFaces
  import opened FaceBuffers
  import opened Meshing
  import opened MeshLocality

  // ----- what is uncovered -----------------------------------------------------------------------------------------

  /** A side of a block that a pass does not draw only because of a block in a chunk that goes. */
  predicate IsCovered(
    defs: BlockDefs, chunks: ChunkMap, gone: set<ChunkCoordinate>, pass: Pass, b: BlockCoordinate, s: Side)
  {
    var block, n := TypeAt(defs, chunks, b), NextTo(b, s);
    && block.Some? && Includes(pass, block.value)
    && n.Some? && ChunkOf(n.value) in gone
    && Suppresses(pass, block.value, TypeAt(defs, chunks, n.value))
  }

  ghost predicate Uncovers(defs: BlockDefs, chunks: ChunkMap, gone: set<ChunkCoordinate>, c: ChunkCoordinate)
    requires InBounds(c)
  {
    exists pass: Pass, o: ChunkOffset, s: Side :: IsCovered(defs, chunks, gone, pass, BlockIn(c, o), s)
  }

  lemma UncoveredIsDrawn(
    defs: BlockDefs, chunks: ChunkMap, gone: set<ChunkCoordinate>, pass: Pass, b: BlockCoordinate, s: Side)
    requires ChunkOf(b) !in gone
    ensures TypeAt(defs, chunks - gone, b) == TypeAt(defs, chunks, b)
    ensures Visible(defs, chunks - gone, pass, b, s) <==>
            Visible(defs, chunks, pass, b, s) || IsCovered(defs, chunks, gone, pass, b, s)
  {
    hide ChunkOf, IndexOf, NextTo;
  }

  lemma PassMeshDiffers(defs: BlockDefs, a: ChunkMap, b: ChunkMap, pass: Pass, c: ChunkCoordinate, f: Face)
    requires InBounds(c) && IsDrawn(defs, a, pass, c, f) && !IsDrawn(defs, b, pass, c, f)
    ensures PassMesh(defs, a, pass, c) != PassMesh(defs, b, pass, c)
  {
    hide IsDrawn, PassFaces, BuffersOf;
    var fa, fb := PassFaces(defs, a, pass, c, 0), PassFaces(defs, b, pass, c, 0);
    PassFacesExact(defs, a, pass, c, f);
    PassFacesExact(defs, b, pass, c, f);
    BufferSizes(fa);
    if BuffersOf(fa).vtx == BuffersOf(fb).vtx {
      BuffersDiffer(fa, fb);
    }
  }

  /** A face is drawn in one map that is not drawn in another. */
  ghost predicate ShowsMore(defs: BlockDefs, now: ChunkMap, before: ChunkMap, c: ChunkCoordinate)
    requires InBounds(c)
  {
    exists pass: Pass, f: Face :: IsDrawn(defs, now, pass, c, f) && !IsDrawn(defs, before, pass, c, f)
  }

  lemma ShowsMoreDiffers(defs: BlockDefs, now: ChunkMap, before: ChunkMap, c: ChunkCoordinate)
    requires InBounds(c) && ShowsMore(defs, now, before, c)
    ensures MeshOf(defs, now, c) != MeshOf(defs, before, c)
  {
    hide IsDrawn, PassMesh;
    var pass: Pass, f: Face :| IsDrawn(defs, now, pass, c, f) && !IsDrawn(defs, before, pass, c, f);
    PassMeshDiffers(defs, now, before, pass, c, f);
    match pass
    case SolidPass =>
    case TransparentPass =>
    case TranslucentPass =>
  }

  /** What showed more still does when the mesh does not change. */
  lemma ShowsMoreStays(defs: BlockDefs, later: ChunkMap, now: ChunkMap, before: ChunkMap, c: ChunkCoordinate)
    requires InBounds(c) && ShowsMore(defs, now, before, c) && MeshOf(defs, later, c) == MeshOf(defs, now, c)
    ensures ShowsMore(defs, later, before, c)
  {
    hide IsDrawn, MeshOf;
    var pass: Pass, f: Face :| IsDrawn(defs, now, pass, c, f) && !IsDrawn(defs, before, pass, c, f);
    if !IsDrawn(defs, later, pass, c, f) {
      assert ShowsMore(defs, now, later, c);
      ShowsMoreDiffers(defs, now, later, c);
    }
  }

  /** And when chunks go. */
  lemma ShowsMoreWithout(
    defs: BlockDefs, chunks: ChunkMap, gone: set<ChunkCoordinate>, before: ChunkMap, c: ChunkCoordinate)
    requires InBounds(c) && c !in gone && ShowsMore(defs, chunks, before, c)
    ensures ShowsMore(defs, chunks - gone, before, c)
  {
    hide TypeAt, Visible, IsCovered, Texture;
    var pass: Pass, f: Face :| IsDrawn(defs, chunks, pass, c, f) && !IsDrawn(defs, before, pass, c, f);
    UncoveredIsDrawn(defs, chunks, gone, pass, BlockIn(c, f.offset), f.side);
    assert IsDrawn(defs, chunks - gone, pass, c, f);
  }

  lemma UncoversShows(defs: BlockDefs, chunks: ChunkMap, gone: set<ChunkCoordinate>, c: ChunkCoordinate)
    requires InBounds(c) && c !in gone && Uncovers(defs, chunks, gone, c)
    ensures ShowsMore(defs, chunks - gone, chunks, c)
  {
    hide TypeAt, Visible, IsCovered, Texture;
    var pass: Pass, o: ChunkOffset, s: Side :| IsCovered(defs, chunks, gone, pass, BlockIn(c, o), s);
    var b := BlockIn(c, o);
    UncoveredIsDrawn(defs, chunks, gone, pass, b, s);
    CoveredIsHidden(defs, chunks, gone, pass, b, s);
    var f := Face(o, s, Texture(TypeAt(defs, chunks, b).value.cube.value, s));
    assert IsDrawn(defs, chunks - gone, pass, c, f) && !IsDrawn(defs, chunks, pass, c, f);
  }

  /** A remaining chunk's mesh changes exactly if a side of one of its blocks is uncovered. */
  lemma MeshChangesExactly(defs: BlockDefs, chunks: ChunkMap, gone: set<ChunkCoordinate>, c: ChunkCoordinate)
    requires InBounds(c) && c !in gone
    ensures MeshOf(defs, chunks - gone, c) == MeshOf(defs, chunks, c) <==> !Uncovers(defs, chunks, gone, c)
  {
    hide MeshOf, TypeAt, Visible, IsCovered;
    if Uncovers(defs, chunks, gone, c) {
      UncoversShows(defs, chunks, gone, c);
      ShowsMoreDiffers(defs, chunks - gone, chunks, c);
    } else {
      forall o: ChunkOffset, s: Side ensures SideSame(defs, chunks - gone, chunks, BlockIn(c, o), s) {
        forall pass: Pass
          ensures Visible(defs, chunks - gone, pass, BlockIn(c, o), s) == Visible(defs, chunks, pass, BlockIn(c, o), s)
        {
          UncoveredIsDrawn(defs, chunks, gone, pass, BlockIn(c, o), s);
        }
        UncoveredIsDrawn(defs, chunks, gone, SolidPass, BlockIn(c, o), s);
      }
      MeshSame(defs, chunks - gone, chunks, c);
    }
  }

  lemma CoveredIsHidden(
    defs: BlockDefs, chunks: ChunkMap, gone: set<ChunkCoordinate>, pass: Pass, b: BlockCoordinate, s: Side)
    requires IsCovered(defs, chunks, gone, pass, b, s)
    ensures !Visible(defs, chunks, pass, b, s)
    ensures TypeAt(defs, chunks, b).Some? && TypeAt(defs, chunks, b).value.cube.Some?
  {
  }
}
