/** The faces of cubes as vertex and index buffers (`emit_cube_face_vk`, cuberef_client/src/cube_renderer.rs). */
module CubeFaces {
  import opened Coordinates

  datatype Side = XMinus | XPlus | YMinus | YPlus | ZMinus | ZPlus

  datatype TexCorner = TopLeft | BottomLeft | BottomRight | TopRight

  datatype Point = Point(x: int, y: int, z: int)

  datatype Vertex = Vertex(at: Point, texture: string, corner: TexCorner)

  /** A face of a block of the chunk. */
  datatype Face = Face(offset: ChunkOffset, side: Side, texture: string)

  /** The corners of a side from the centre of the block, in units of half a block, so that they are whole; the
      renderer's y axis points down. */
  function Extents(s: Side): (ps: seq<Point>)
    ensures |ps| == 4
  {
    match s
    case ZMinus => [Point(1, -1, -1), Point(1, 1, -1), Point(-1, 1, -1), Point(-1, -1, -1)]
    case ZPlus => [Point(-1, -1, 1), Point(-1, 1, 1), Point(1, 1, 1), Point(1, -1, 1)]
    case XPlus => [Point(1, -1, 1), Point(1, 1, 1), Point(1, 1, -1), Point(1, -1, -1)]
    case XMinus => [Point(-1, -1, -1), Point(-1, 1, -1), Point(-1, 1, 1), Point(-1, -1, 1)]
    case YPlus => [Point(-1, -1, -1), Point(-1, -1, 1), Point(1, -1, 1), Point(1, -1, -1)]
    case YMinus => [Point(-1, 1, -1), Point(1, 1, -1), Point(1, 1, 1), Point(-1, 1, 1)]
  }

  const TEX_CORNERS: seq<TexCorner> := [TopLeft, BottomLeft, BottomRight, TopRight]

  function MakeVertex(o: ChunkOffset, e: Point, texture: string, corner: TexCorner): Vertex {
    Vertex(Point(2 * o.x + e.x, -2 * o.y + e.y, 2 * o.z + e.z), texture, corner)
  }

  function FaceVertices(f: Face): (vs: seq<Vertex>)
    ensures |vs| == 4
  {
    seq(4, j requires 0 <= j < 4 => MakeVertex(f.offset, Extents(f.side)[j], f.texture, TEX_CORNERS[j]))
  }

  /** The two triangles of a face whose vertices start at `start`. */
  function FaceIndices(start: nat): seq<nat> { [start, start + 1, start + 2, start, start + 2, start + 3] }

  /** The buffers after some faces. */
  datatype Buffers = Buffers(vtx: seq<Vertex>, idx: seq<nat>)

  function BuffersOf(faces: seq<Face>): Buffers {
    if faces == [] then Buffers([], [])
    else EmitFace(BuffersOf(faces[..|faces| - 1]), faces[|faces| - 1])
  }

  /** `emit_cube_face_vk`: one more face at the end of both buffers. */
  function EmitFace(b: Buffers, f: Face): Buffers {
    Buffers(b.vtx + FaceVertices(f), b.idx + FaceIndices(|b.vtx|))
  }

  lemma BuffersAppend(faces: seq<Face>, f: Face)
    ensures BuffersOf(faces + [f]) == EmitFace(BuffersOf(faces), f)
  {
    assert (faces + [f])[..|faces|] == faces;
  }

  /** The corner of the buffers that the `j`-th index of the `k`-th face refers to is that corner of that face: no index
      is out of range and no face uses another's vertices. */
  lemma {:induction false} IndicesRefer(faces: seq<Face>, k: nat, j: nat)
    requires k < |faces| && j < 6
    ensures var b := BuffersOf(faces);
      && |b.vtx| == 4 * |faces| && |b.idx| == 6 * |faces|
      && b.idx[6 * k + j] < |b.vtx|
      && b.vtx[b.idx[6 * k + j]] == FaceVertices(faces[k])[FaceIndices(0)[j]]
  {
    hide FaceVertices;
    var last := |faces| - 1;
    BufferSizes(faces[..last]);
    if k < last {
      IndicesRefer(faces[..last], k, j);
    }
  }

  lemma {:induction false} BufferSizes(faces: seq<Face>)
    ensures |BuffersOf(faces).vtx| == 4 * |faces| && |BuffersOf(faces).idx| == 6 * |faces|
  {
    if faces != [] { BufferSizes(faces[..|faces| - 1]); }
  }

  // ----- geometry --------------------------------------------------------------------------------------------------

  function Minus(a: Point, b: Point): Point { Point(a.x - b.x, a.y - b.y, a.z - b.z) }

  function Minor(a: int, b: int, c: int, d: int): int { a * d - b * c }

  function Cross(a: Point, b: Point): Point {
    Point(Minor(a.y, a.z, b.y, b.z), Minor(a.z, a.x, b.z, b.x), Minor(a.x, a.y, b.x, b.y))
  }

  /** One step along a side, in blocks. */
  function Delta(s: Side): Point {
    match s
    case XMinus => Point(-1, 0, 0)
    case XPlus => Point(1, 0, 0)
    case YMinus => Point(0, -1, 0)
    case YPlus => Point(0, 1, 0)
    case ZMinus => Point(0, 0, -1)
    case ZPlus => Point(0, 0, 1)
  }

  function Opposite(s: Side): Side {
    match s
    case XMinus => XPlus
    case XPlus => XMinus
    case YMinus => YPlus
    case YPlus => YMinus
    case ZMinus => ZPlus
    case ZPlus => ZMinus
  }

  /** How far a vector goes outwards, in the renderer's axes. */
  function Outward(s: Side, p: Point): int {
    match s
    case XMinus => -p.x
    case XPlus => p.x
    case YMinus => p.y
    case YPlus => -p.y
    case ZMinus => -p.z
    case ZPlus => p.z
  }

  /** Twice the area of a triangle, negative if it is wound clockwise as seen from outside. */
  function Winding(s: Side, a: Point, b: Point, c: Point): int { Outward(s, Cross(Minus(b, a), Minus(c, a))) }

  lemma CrossX(p: Point, l: int)
    requires l == 2 || l == -2
    ensures Cross(Point(l, 0, 0), p) == Point(0, -l * p.z, l * p.y)
    ensures Cross(p, Point(l, 0, 0)) == Point(0, l * p.z, -l * p.y)
  {
  }

  lemma CrossY(p: Point)
    ensures Cross(Point(0, 2, 0), p) == Point(2 * p.z, 0, -2 * p.x)
  {
  }

  lemma CrossZ(p: Point, l: int)
    requires l == 2 || l == -2
    ensures Cross(Point(0, 0, l), p) == Point(-l * p.y, l * p.x, 0)
    ensures Cross(p, Point(0, 0, l)) == Point(l * p.y, -l * p.x, 0)
  {
  }

  lemma ExtentsFaceOutward(s: Side)
    ensures var e := Extents(s);
      && Winding(s, e[0], e[1], e[2]) == -4
      && Winding(s, e[0], e[2], e[3]) == -4
      && Outward(s, e[0]) == Outward(s, e[1]) == Outward(s, e[2]) == Outward(s, e[3]) == 1
  {
    hide Cross;
    var e := Extents(s);
    match s
    case XMinus =>
      assert Minus(e[1], e[0]) == Point(0, 2, 0);
      assert Minus(e[2], e[0]) == Point(0, 2, 2) && Minus(e[3], e[0]) == Point(0, 0, 2);
      CrossY(Point(0, 2, 2));
      CrossZ(Point(0, 2, 2), 2);
    case XPlus =>
      assert Minus(e[1], e[0]) == Point(0, 2, 0);
      assert Minus(e[2], e[0]) == Point(0, 2, -2) && Minus(e[3], e[0]) == Point(0, 0, -2);
      CrossY(Point(0, 2, -2));
      CrossZ(Point(0, 2, -2), -2);
    case YMinus =>
      assert Minus(e[1], e[0]) == Point(2, 0, 0);
      assert Minus(e[2], e[0]) == Point(2, 0, 2) && Minus(e[3], e[0]) == Point(0, 0, 2);
      CrossX(Point(2, 0, 2), 2);
      CrossZ(Point(2, 0, 2), 2);
    case YPlus =>
      assert Minus(e[1], e[0]) == Point(0, 0, 2);
      assert Minus(e[2], e[0]) == Point(2, 0, 2) && Minus(e[3], e[0]) == Point(2, 0, 0);
      CrossZ(Point(2, 0, 2), 2);
      CrossX(Point(2, 0, 2), 2);
    case ZMinus =>
      assert Minus(e[1], e[0]) == Point(0, 2, 0);
      assert Minus(e[2], e[0]) == Point(-2, 2, 0) && Minus(e[3], e[0]) == Point(-2, 0, 0);
      CrossY(Point(-2, 2, 0));
      CrossX(Point(-2, 2, 0), -2);
    case ZPlus =>
      assert Minus(e[1], e[0]) == Point(0, 2, 0);
      assert Minus(e[2], e[0]) == Point(2, 2, 0) && Minus(e[3], e[0]) == Point(2, 0, 0);
      CrossY(Point(2, 2, 0));
      CrossX(Point(2, 2, 0), 2);
  }

  function Corner(f: Face, j: nat): Point
    requires j < 4
  {
    FaceVertices(f)[j].at
  }

  lemma WindingMoves(s: Side, a: Point, b: Point, c: Point, shift: Point)
    ensures Winding(s, Plus(a, shift), Plus(b, shift), Plus(c, shift)) == Winding(s, a, b, c)
  {
    hide Cross, Outward;
    assert Minus(Plus(b, shift), Plus(a, shift)) == Minus(b, a);
    assert Minus(Plus(c, shift), Plus(a, shift)) == Minus(c, a);
  }

  function Plus(a: Point, b: Point): Point { Point(a.x + b.x, a.y + b.y, a.z + b.z) }

  /** A block's centre in the renderer's axes. */
  function Centre(o: ChunkOffset): Point { Point(2 * o.x, -2 * o.y, 2 * o.z) }

  /** Every face lies half a block outwards of its block's centre, and both of its triangles are wound the same way
      round as seen from outside. */
  lemma FacesFaceOutward(f: Face, j: nat)
    requires j < 4
    ensures Outward(f.side, Minus(Corner(f, j), Centre(f.offset))) == 1
    ensures Winding(f.side, Corner(f, 0), Corner(f, 1), Corner(f, 2)) == -4
    ensures Winding(f.side, Corner(f, 0), Corner(f, 2), Corner(f, 3)) == -4
  {
    hide Winding, Outward, Extents;
    var e, shift := Extents(f.side), Centre(f.offset);
    ExtentsFaceOutward(f.side);
    CornersAt(f);
    assert Minus(Corner(f, j), shift) == e[j];
    WindingMoves(f.side, e[0], e[1], e[2], shift);
    WindingMoves(f.side, e[0], e[2], e[3], shift);
  }

  /** On the four upright sides the texture stands upright: its upper corners are the upper corners of the face, the
      renderer's y axis pointing down. Being wound as they are, faces do not show it mirrored either. */
  lemma TexturesUpright(f: Face, j: nat)
    requires j < 4 && f.side != YMinus && f.side != YPlus
    ensures var v := FaceVertices(f)[j];
      && (v.corner.TopLeft? || v.corner.TopRight? <==> v.at.y == Centre(f.offset).y - 1)
      && (v.corner.BottomLeft? || v.corner.BottomRight? <==> v.at.y == Centre(f.offset).y + 1)
  {
    CornersAt(f);
    assert Corner(f, j) == Plus(Extents(f.side)[j], Centre(f.offset));
  }

  function Corners(f: Face): set<Point> { {Corner(f, 0), Corner(f, 1), Corner(f, 2), Corner(f, 3)} }

  /** Two blocks that touch have the same corners on the sides where they touch. */
  lemma TouchingFacesMatch(f: Face, g: Face)
    requires g.side == Opposite(f.side)
    requires g.offset.x == f.offset.x + Delta(f.side).x
    requires g.offset.y == f.offset.y + Delta(f.side).y
    requires g.offset.z == f.offset.z + Delta(f.side).z
    ensures Corners(f) == Corners(g)
  {
    CornersAt(f);
    CornersAt(g);
    hide Corner;
    if f.side.YMinus? || f.side.YPlus? {
      assert Corner(f, 0) == Corner(g, 0) && Corner(f, 1) == Corner(g, 3);
      assert Corner(f, 2) == Corner(g, 2) && Corner(f, 3) == Corner(g, 1);
    } else {
      assert Corner(f, 0) == Corner(g, 3) && Corner(f, 1) == Corner(g, 2);
      assert Corner(f, 2) == Corner(g, 1) && Corner(f, 3) == Corner(g, 0);
    }
  }

  lemma CornersAt(f: Face)
    ensures forall k: nat :: k < 4 ==> Corner(f, k) == Plus(Extents(f.side)[k], Centre(f.offset))
  {
  }
}
