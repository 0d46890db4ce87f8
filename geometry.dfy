/**
  Screen-space geometry of one overlay quad: the four corners computed from the
  record's position, its scale and the image size, the texture coordinates of
  those corners with the optional horizontal and vertical flips, and the two
  triangles the quad is drawn as. Positions and scales are exact reals.
 */
module Geometry {

  datatype Vec2 = Vec2(x: real, y: real)

  /** One triangle of the index buffer, as three corner numbers. */
  datatype Tri = Tri(a: nat, b: nat, c: nat)

  /** The point of the quad anchored at `pos` with extent (w, h) that the
      texture coordinate `uv` of an unflipped texture lands on. */
  function Place(pos: Vec2, w: real, h: real, uv: Vec2): Vec2 {
    Vec2(pos.x + uv.x * w, pos.y + uv.y * h)
  }

  /** The texture coordinates of the unflipped unit square, in corner order. */
  function UnitSquare(): (r: seq<Vec2>)
    ensures |r| == 4
  {
    [Vec2(0.0, 0.0), Vec2(1.0, 0.0), Vec2(1.0, 1.0), Vec2(0.0, 1.0)]
  }

  /** Quad width and height: image size times the record's scale. */
  function Extent(scale: Vec2, width: nat, height: nat): Vec2 {
    Vec2(width as real * scale.x, height as real * scale.y)
  }

  /** The four corners: bottom-left at `pos`, then right, up-right and up. */
  function Corners(pos: Vec2, scale: Vec2, width: nat, height: nat): (r: seq<Vec2>)
    ensures |r| == 4
    // the quad is the unit square carried to `pos` and stretched to the extent
    ensures forall i :: 0 <= i < 4 ==>
      r[i] == Place(pos, Extent(scale, width, height).x, Extent(scale, width, height).y, UnitSquare()[i])
  {
    var w := width as real * scale.x;
    var h := height as real * scale.y;
    [Vec2(pos.x, pos.y), Vec2(pos.x + w, pos.y), Vec2(pos.x + w, pos.y + h), Vec2(pos.x, pos.y + h)]
  }

  /** u becomes 1 - u in every coordinate pair. */
  function FlipU(uvs: seq<Vec2>): (r: seq<Vec2>)
    ensures |r| == |uvs|
    ensures forall i :: 0 <= i < |uvs| ==> r[i].x == 1.0 - uvs[i].x && r[i].y == uvs[i].y
  {
    seq(|uvs|, i requires 0 <= i < |uvs| => Vec2(1.0 - uvs[i].x, uvs[i].y))
  }

  /** v becomes 1 - v in every coordinate pair. */
  function FlipV(uvs: seq<Vec2>): (r: seq<Vec2>)
    ensures |r| == |uvs|
    ensures forall i :: 0 <= i < |uvs| ==> r[i].x == uvs[i].x && r[i].y == 1.0 - uvs[i].y
  {
    seq(|uvs|, i requires 0 <= i < |uvs| => Vec2(uvs[i].x, 1.0 - uvs[i].y))
  }

  /** Texture coordinates of the four corners: the unit square, flipped in u
      when `flipX` holds, then flipped in v when `flipY` holds. */
  function QuadUVs(flipX: bool, flipY: bool): (r: seq<Vec2>)
    ensures |r| == 4
    // each corner shows the unit-square point mirrored along the flipped axes
    ensures forall i :: 0 <= i < 4 ==> Unflip(flipX, flipY, r[i]) == UnitSquare()[i]
  {
    var uvs := UnitSquare();
    var uvs := if flipX then FlipU(uvs) else uvs;
    if flipY then FlipV(uvs) else uvs
  }

  /** The index buffer: two triangles sharing the diagonal from corner 0 to corner 2. */
  function Triangles(): (r: seq<Tri>)
    ensures |r| == 2
    ensures forall t :: t in r ==> t.a < 4 && t.b < 4 && t.c < 4
  {
    [Tri(0, 1, 2), Tri(2, 3, 0)]
  }

  /** The corner numbers a triangle uses. */
  function Vertices(t: Tri): set<nat> {
    {t.a, t.b, t.c}
  }

  /** Twice the signed area of the triangle (p, q, s); positive when counter-clockwise. */
  function Cross(p: Vec2, q: Vec2, s: Vec2): real {
    (q.x - p.x) * (s.y - p.y) - (q.y - p.y) * (s.x - p.x)
  }

  /** Worked example: position (100,100), scale (0.2,0.2), 500 x 300 image. */
  lemma CornersExample()
    ensures Corners(Vec2(100.0, 100.0), Vec2(0.2, 0.2), 500, 300)
         == [Vec2(100.0, 100.0), Vec2(200.0, 100.0), Vec2(200.0, 160.0), Vec2(100.0, 160.0)]
  {
  }

  /** Each flip undoes itself. */
  lemma FlipsAreInvolutions(uvs: seq<Vec2>)
    ensures FlipU(FlipU(uvs)) == uvs
    ensures FlipV(FlipV(uvs)) == uvs
  {
  }

  /** The two flips may be applied in either order. */
  lemma FlipsCommute(uvs: seq<Vec2>)
    ensures FlipV(FlipU(uvs)) == FlipU(FlipV(uvs))
  {
  }

  /** The four flip combinations written out. */
  lemma QuadUVsTable()
    ensures QuadUVs(false, false) == [Vec2(0.0, 0.0), Vec2(1.0, 0.0), Vec2(1.0, 1.0), Vec2(0.0, 1.0)]
    ensures QuadUVs(true, false) == [Vec2(1.0, 0.0), Vec2(0.0, 0.0), Vec2(0.0, 1.0), Vec2(1.0, 1.0)]
    ensures QuadUVs(false, true) == [Vec2(0.0, 1.0), Vec2(1.0, 1.0), Vec2(1.0, 0.0), Vec2(0.0, 0.0)]
    ensures QuadUVs(true, true) == [Vec2(1.0, 1.0), Vec2(0.0, 1.0), Vec2(0.0, 0.0), Vec2(1.0, 0.0)]
  {
  }

  /** Every texture coordinate is a corner of the unit square. */
  lemma QuadUVsInUnitSquare(flipX: bool, flipY: bool)
    ensures forall i :: 0 <= i < 4 ==>
      (QuadUVs(flipX, flipY)[i].x == 0.0 || QuadUVs(flipX, flipY)[i].x == 1.0) &&
      (QuadUVs(flipX, flipY)[i].y == 0.0 || QuadUVs(flipX, flipY)[i].y == 1.0)
  {
  }

  /** Mirror a coordinate pair back: the inverse of the flips applied by QuadUVs. */
  function Unflip(flipX: bool, flipY: bool, uv: Vec2): Vec2 {
    Vec2(if flipX then 1.0 - uv.x else uv.x, if flipY then 1.0 - uv.y else uv.y)
  }

  /** The texture is mapped onto the quad mirrored exactly along the flipped
      axes: corner i shows texture coordinate QuadUVs[i], and undoing the
      flips on it gives that corner's place in the quad. */
  lemma TextureMapping(pos: Vec2, scale: Vec2, width: nat, height: nat, flipX: bool, flipY: bool)
    ensures forall i :: 0 <= i < 4 ==>
      Corners(pos, scale, width, height)[i]
        == Place(pos, Extent(scale, width, height).x, Extent(scale, width, height).y,
                 Unflip(flipX, flipY, QuadUVs(flipX, flipY)[i]))
  {
    var uvs := QuadUVs(flipX, flipY);
    forall i | 0 <= i < 4
      ensures Unflip(flipX, flipY, uvs[i]) == UnitSquare()[i]
    {
    }
  }

  /** Both triangles index corners 0..3, share the diagonal 0-2 and together
      use all four corners. */
  lemma TrianglesShareDiagonal()
    ensures forall t :: t in Triangles() ==> t.a < 4 && t.b < 4 && t.c < 4
    ensures forall t :: t in Triangles() ==> 0 in Vertices(t) && 2 in Vertices(t)
    ensures Vertices(Triangles()[0]) + Vertices(Triangles()[1]) == {0, 1, 2, 3}
  {
  }

  /** Each triangle's doubled signed area is w * h, the quad's own area: for
      a positive extent both are counter-clockwise and each covers half the
      quad. That they meet only along the diagonal is not proved here. */
  lemma TrianglesCoverQuad(pos: Vec2, scale: Vec2, width: nat, height: nat)
    ensures var c := Corners(pos, scale, width, height);
            var e := Extent(scale, width, height);
            forall t :: t in Triangles() ==> Cross(c[t.a], c[t.b], c[t.c]) == e.x * e.y
  {
    var c := Corners(pos, scale, width, height);
    var e := Extent(scale, width, height);
    assert Cross(c[0], c[1], c[2]) == e.x * e.y;
    assert Cross(c[2], c[3], c[0]) == (-e.x) * (-e.y);
  }
}
