/** Vertex buffers determine their faces (`emit_cube_face_vk`, cuberef_client/src/cube_renderer.rs). */
module FaceBuffers {
  import opened Coordinates
  import opened CubeFaces

  lemma VerticesDiffer(f: Face, g: Face)
    requires FaceVertices(f) == FaceVertices(g)
    ensures f == g
  {
    assert FaceVertices(f)[0].texture == FaceVertices(g)[0].texture;
    CornersAt(f);
    CornersAt(g);
    assert forall j: nat :: j < 4 ==> Corner(f, j) == Corner(g, j);
    SidesDiffer(f, g);
  }

  lemma SidesDiffer(f: Face, g: Face)
    requires forall j: nat :: j < 4 ==> Corner(f, j) == Corner(g, j)
    ensures f.side == g.side && f.offset == g.offset
  {
    var e, d := Extents(f.side), Extents(g.side);
    CornersAt(f);
    CornersAt(g);
    hide Corner, Extents;
    forall j: nat | j < 4
      ensures e[j].x - e[0].x == d[j].x - d[0].x
      ensures e[j].y - e[0].y == d[j].y - d[0].y
      ensures e[j].z - e[0].z == d[j].z - d[0].z
    {
      assert Plus(e[j], Centre(f.offset)) == Plus(d[j], Centre(g.offset));
      assert Plus(e[0], Centre(f.offset)) == Plus(d[0], Centre(g.offset));
    }
    EdgesDiffer(f.side, g.side);
    assert Plus(e[0], Centre(f.offset)) == Plus(d[0], Centre(g.offset));
  }

  lemma EdgesDiffer(s: Side, t: Side)
    requires var e, d := Extents(s), Extents(t);
      forall j: nat :: j < 4 ==>
        && e[j].x - e[0].x == d[j].x - d[0].x
        && e[j].y - e[0].y == d[j].y - d[0].y
        && e[j].z - e[0].z == d[j].z - d[0].z
    ensures s == t
  {
    var e, d := Extents(s), Extents(t);
    assert e[1].x - e[0].x == d[1].x - d[0].x;
    assert e[3].x - e[0].x == d[3].x - d[0].x;
  }

  lemma {:induction false} BuffersDiffer(a: seq<Face>, b: seq<Face>)
    requires BuffersOf(a).vtx == BuffersOf(b).vtx
    ensures a == b
    decreases |a|
  {
    hide FaceVertices;
    BufferSizes(a);
    BufferSizes(b);
    if a != [] {
      var n := |a| - 1;
      var va, vb := BuffersOf(a[..n]).vtx, BuffersOf(b[..n]).vtx;
      BufferSizes(a[..n]);
      BufferSizes(b[..n]);
      assert va + FaceVertices(a[n]) == vb + FaceVertices(b[n]);
      assert va == (va + FaceVertices(a[n]))[..|va|] && vb == (vb + FaceVertices(b[n]))[..|vb|];
      assert FaceVertices(a[n]) == (va + FaceVertices(a[n]))[|va|..];
      assert FaceVertices(b[n]) == (vb + FaceVertices(b[n]))[|vb|..];
      BuffersDiffer(a[..n], b[..n]);
      VerticesDiffer(a[n], b[n]);
      assert a == a[..n] + [a[n]] && b == b[..n] + [b[n]];
    }
  }

  /** The vertices of a face are in the buffers, at a place where the indices take up four at a time. */
  ghost predicate HasFace(b: Buffers, f: Face) {
    exists k: nat :: HasFaceAt(b, f, k)
  }

  predicate HasFaceAt(b: Buffers, f: Face, k: nat) {
    4 * k + 4 <= |b.vtx| && b.vtx[4 * k..4 * k + 4] == FaceVertices(f)
  }

  lemma {:induction false} FaceAt(faces: seq<Face>, k: nat)
    requires k < |faces|
    ensures HasFaceAt(BuffersOf(faces), faces[k], k)
  {
    hide FaceVertices;
    var last := |faces| - 1;
    BufferSizes(faces);
    BufferSizes(faces[..last]);
    if k < last {
      FaceAt(faces[..last], k);
      assert BuffersOf(faces).vtx[4 * k..4 * k + 4] == BuffersOf(faces[..last]).vtx[4 * k..4 * k + 4];
    }
  }

  /** The buffers have just the faces that they were made from. */
  lemma HasFacesExactly(faces: seq<Face>, f: Face)
    ensures HasFace(BuffersOf(faces), f) <==> f in faces
  {
    hide HasFaceAt, FaceVertices, BuffersOf;
    if f in faces {
      var k: nat :| k < |faces| && faces[k] == f;
      FaceAt(faces, k);
    }
    if HasFace(BuffersOf(faces), f) {
      var k: nat :| HasFaceAt(BuffersOf(faces), f, k);
      FaceFound(faces, f, k);
    }
  }

  lemma FaceFound(faces: seq<Face>, f: Face, k: nat)
    requires HasFaceAt(BuffersOf(faces), f, k)
    ensures k < |faces| && faces[k] == f
  {
    hide FaceVertices, BuffersOf;
    BufferSizes(faces);
    FaceAt(faces, k);
    VerticesDiffer(faces[k], f);
  }
}
