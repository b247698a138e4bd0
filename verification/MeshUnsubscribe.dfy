/** What an unsubscribe leaves of the meshes (`handle_unsubscribe`, cuberef_client/src/net_client/client_context.rs):
    it does not queue the neighbors of the chunks that go. */
module MeshUnsubscribe {
  import opened Wrappers
  import opened Coordinates
  import opened CubeFaces
  import opened Meshing
  import opened Uncovering
  import opened MeshCache

  /** An unsubscribe keeps the meshes right exactly if it uncovers no side in a remaining chunk that does not wait to be
      meshed anyway. */
  lemma UnsubscribeKeepsExactly(defs: BlockDefs, k: Cache, gone: set<ChunkCoordinate>)
    requires AllFresh(defs, k)
    ensures AllFresh(defs, AfterUnsubscribe(defs, k, gone)) <==>
            (forall c :: c in k.chunks && c !in gone && c !in k.queue && c !in k.batch ==>
               !Uncovers(defs, k.chunks, gone, c))
  {
    hide MeshOf, Uncovers, InBounds;
    var k' := AfterUnsubscribe(defs, k, gone);
    assert Valid(k');
    forall c | c in k.chunks && c !in gone && c !in k.queue && c !in k.batch
      ensures Fresh(defs, k', c) <==> !Uncovers(defs, k.chunks, gone, c)
    {
      assert Fresh(defs, k, c);
      MeshChangesExactly(defs, k.chunks, gone, c);
    }
    if forall c :: c in k.chunks && c !in gone && c !in k.queue && c !in k.batch ==>
         !Uncovers(defs, k.chunks, gone, c)
    {
      forall c: ChunkCoordinate ensures Fresh(defs, k', c) {
        assert Fresh(defs, k, c);
      }
    }
  }

  /** Two chunks that touch with solid blocks: when one goes, the other's mesh lacks a side where they touched. */
  lemma UnsubscribeLeavesHole(defs: BlockDefs, ids: BlockIds)
    requires IsSolid(defs.Get(ids[0])) && IsSolid(defs.Get(ids[15]))
    ensures
      var c, d := ChunkCoordinate(0, 0, 0), ChunkCoordinate(1, 0, 0);
      var chunks: ChunkMap := map[c := ids, d := ids];
      var k := Cache(chunks, map[c := Some(MeshOf(defs, chunks, c)), d := Some(MeshOf(defs, chunks, d))], {}, [], {});
      AllFresh(defs, k) && !AllFresh(defs, AfterUnsubscribe(defs, k, {d}))
  {
    hide MeshOf, IsCovered, BlockIn, IsSolid;
    var c, d := ChunkCoordinate(0, 0, 0), ChunkCoordinate(1, 0, 0);
    var chunks: ChunkMap := map[c := ids, d := ids];
    var k := Cache(chunks, map[c := Some(MeshOf(defs, chunks, c)), d := Some(MeshOf(defs, chunks, d))], {}, [], {});
    TouchingIsCovered(defs, chunks, ids);
    UnsubscribeKeepsExactly(defs, k, {d});
    assert Uncovers(defs, chunks, {d}, c);
  }

  lemma TouchingIsCovered(defs: BlockDefs, chunks: ChunkMap, ids: BlockIds)
    requires chunks == map[ChunkCoordinate(0, 0, 0) := ids, ChunkCoordinate(1, 0, 0) := ids]
    requires IsSolid(defs.Get(ids[0])) && IsSolid(defs.Get(ids[15])) && InBounds(ChunkCoordinate(0, 0, 0))
    ensures IsCovered(defs, chunks, {ChunkCoordinate(1, 0, 0)}, SolidPass,
                      BlockIn(ChunkCoordinate(0, 0, 0), ChunkOffset(15, 0, 0)), XPlus)
  {
    hide ChunkOf, IndexOf, NextTo, BlockIn, OffsetOf, InBounds, BlockDefs.Get;
    var c := ChunkCoordinate(0, 0, 0);
    var b := BlockIn(c, ChunkOffset(15, 0, 0));
    AtBorder(b);
    assert TypeAt(defs, chunks, b) == Some(defs.Get(ids[15]));
    assert TypeAt(defs, chunks, NextTo(b, XPlus).value) == Some(defs.Get(ids[0]));
  }

  lemma AtBorder(b: BlockCoordinate)
    requires ChunkOf(b) == ChunkCoordinate(0, 0, 0) && OffsetOf(b) == ChunkOffset(15, 0, 0)
    ensures IndexOf(b) == 15 && NextTo(b, XPlus).Some?
    ensures var n := NextTo(b, XPlus).value; ChunkOf(n) == ChunkCoordinate(1, 0, 0) && IndexOf(n) == 0
  {
    assert b.x == 15 && b.y == 0 && b.z == 0;
  }
}
