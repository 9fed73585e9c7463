/**
 * The textured quad an animation draws (src/Engine/Animation.cpp, `setVertex`
 * and `draw`): its four corners, the texture coordinates that select the
 * current frame of the sprite sheet, the interleaved vertex record handed to
 * the renderer and the index list of its two triangles.
 */
module AnimationQuad {

  datatype Vector3 = Vector3(x: real, y: real, z: real)

  /** RGBA colour; only r, g and b reach the vertex record. */
  datatype Color = Color(r: real, g: real, b: real, a: real)

  datatype TexCoord = TexCoord(u: real, v: real)

  /**
   * The quad pushed by `setVertex`: top-right, bottom-right, bottom-left,
   * top-left. These are the four distinct corners of the unit square in the
   * z == 0 plane, listed around its edge: each corner differs from the next
   * (cyclically) in exactly one of x and y.
   */
  function QuadCorners(): (r: seq<Vector3>)
    ensures |r| == 4
    ensures forall i :: 0 <= i < |r| ==>
      r[i].z == 0.0 && (r[i].x == 0.0 || r[i].x == 1.0) && (r[i].y == 0.0 || r[i].y == 1.0)
    ensures forall i, j :: 0 <= i < j < |r| ==> r[i] != r[j]
    ensures Adjacent(r[0], r[1]) && Adjacent(r[1], r[2]) && Adjacent(r[2], r[3]) && Adjacent(r[3], r[0])
  {
    [Vector3(1.0, 1.0, 0.0), Vector3(1.0, 0.0, 0.0), Vector3(0.0, 0.0, 0.0), Vector3(0.0, 1.0, 0.0)]
  }

  /** Two corners of an axis-aligned square joined by one of its edges: they differ in exactly one of x and y. */
  predicate Adjacent(a: Vector3, b: Vector3) {
    (a.x == b.x) != (a.y == b.y)
  }

  /**
   * Texture coordinates of the four corners in `draw`. Every corner takes
   * its u from the current frame shifted by the corner's own x, scaled by
   * the frame width and the X-mirror sign, and its v from the corner's own y
   * scaled by the Y-mirror sign: the quad shows one frame-wide strip of the
   * sheet, at its full height.
   */
  function TexCoords(currentFrame: int, frameWidth: real, mirrorX: int, mirrorY: int): (r: seq<TexCoord>)
    ensures |r| == |QuadCorners()|
    ensures forall i :: 0 <= i < |r| ==>
      r[i] == TexCoord(mirrorX as real * frameWidth * (currentFrame as real + QuadCorners()[i].x),
                       mirrorY as real * QuadCorners()[i].y)
  {
    var frame, mx, my := currentFrame as real, mirrorX as real, mirrorY as real;
    [TexCoord(mx * frameWidth * (frame + 1.0), my * 1.0),
     TexCoord(mx * frameWidth * (frame + 1.0), my * 0.0),
     TexCoord(mx * frameWidth * frame, my * 0.0),
     TexCoord(mx * frameWidth * frame, my * 1.0)]
  }

  /**
   * The right edge (corners 0 and 1) lies one signed frame width beyond the
   * left edge (corners 3 and 2); the top corners get v == mirrorY, the bottom
   * ones v == 0.
   */
  lemma TexCoordEdges(currentFrame: int, frameWidth: real, mirrorX: int, mirrorY: int)
    ensures var r := TexCoords(currentFrame, frameWidth, mirrorX, mirrorY);
      && r[0].u == r[1].u && r[2].u == r[3].u
      && r[0].u - r[3].u == mirrorX as real * frameWidth
      && r[0].v == r[3].v == mirrorY as real
      && r[1].v == r[2].v == 0.0
  {
    var r := TexCoords(currentFrame, frameWidth, mirrorX, mirrorY);
    var w, f := mirrorX as real * frameWidth, currentFrame as real;
    assert r[0].u == w * (f + 1.0) && r[3].u == w * (f + 0.0);
    assert w * (f + 1.0) - w * (f + 0.0) == w;
  }

  /** Flipping the X-mirror sign negates every u and leaves every v alone. */
  lemma MirrorXFlipsU(currentFrame: int, frameWidth: real, mirrorY: int)
    ensures forall i :: 0 <= i < |QuadCorners()| ==>
      && TexCoords(currentFrame, frameWidth, -1, mirrorY)[i].u == -TexCoords(currentFrame, frameWidth, 1, mirrorY)[i].u
      && TexCoords(currentFrame, frameWidth, -1, mirrorY)[i].v == TexCoords(currentFrame, frameWidth, 1, mirrorY)[i].v
  {
    var mirrored, plain := TexCoords(currentFrame, frameWidth, -1, mirrorY), TexCoords(currentFrame, frameWidth, 1, mirrorY);
    forall i | 0 <= i < |QuadCorners()|
      ensures mirrored[i].u == -plain[i].u && mirrored[i].v == plain[i].v
    {
      var s := currentFrame as real + QuadCorners()[i].x;
      assert mirrored[i].u == -1.0 * frameWidth * s && plain[i].u == 1.0 * frameWidth * s;
    }
  }

  /** Flipping the Y-mirror sign negates every v and leaves every u alone. */
  lemma MirrorYFlipsV(currentFrame: int, frameWidth: real, mirrorX: int)
    ensures forall i :: 0 <= i < |QuadCorners()| ==>
      && TexCoords(currentFrame, frameWidth, mirrorX, -1)[i].v == -TexCoords(currentFrame, frameWidth, mirrorX, 1)[i].v
      && TexCoords(currentFrame, frameWidth, mirrorX, -1)[i].u == TexCoords(currentFrame, frameWidth, mirrorX, 1)[i].u
  {
    var mirrored, plain := TexCoords(currentFrame, frameWidth, mirrorX, -1), TexCoords(currentFrame, frameWidth, mirrorX, 1);
    forall i | 0 <= i < |QuadCorners()|
      ensures mirrored[i].v == -plain[i].v && mirrored[i].u == plain[i].u
    {
      assert mirrored[i].v == -1.0 * QuadCorners()[i].y && plain[i].v == 1.0 * QuadCorners()[i].y;
    }
  }

  /**
   * Unmirrored, frame k shows the strip [k * w, (k + 1) * w] of the sheet:
   * the left corners sit at k * w and the right ones at (k + 1) * w.
   */
  lemma FrameStrip(k: int, w: real)
    ensures var r := TexCoords(k, w, 1, 1);
      && r[2].u == r[3].u == k as real * w
      && r[0].u == r[1].u == (k + 1) as real * w
      && r[0].v == r[3].v == 1.0 && r[1].v == r[2].v == 0.0
  {
    var r := TexCoords(k, w, 1, 1);
    assert r[3].u == 1.0 * w * (k as real + 0.0);
    assert r[0].u == 1.0 * w * (k as real + 1.0);
  }

  /**
   * The X-mirrored frame that `update` stores for frame index k is -k; drawn
   * with mirrorX == -1 the two signs cancel, so the left corners sit at
   * k * w and the right ones at (k - 1) * w: the quad shows the strip of
   * frame k - 1, flipped horizontally.
   */
  lemma MirroredFrameStrip(k: int, w: real, mirrorY: int)
    ensures var r := TexCoords(-k, w, -1, mirrorY);
      && r[2].u == r[3].u == k as real * w
      && r[0].u == r[1].u == (k - 1) as real * w
  {
    var r := TexCoords(-k, w, -1, mirrorY);
    assert r[3].u == -1.0 * w * (-k as real + 0.0);
    assert r[0].u == -1.0 * w * (-k as real + 1.0);
  }

  /**
   * Unmirrored, with a positive frame width and a frame whose strip ends
   * within the sheet ((k + 1) * w <= 1), every texture coordinate lies in
   * [0, 1].
   */
  lemma StripInsideSheet(k: nat, w: real)
    requires 0.0 < w && (k + 1) as real * w <= 1.0
    ensures forall c <- TexCoords(k, w, 1, 1) :: 0.0 <= c.u <= 1.0 && 0.0 <= c.v <= 1.0
  {
    FrameStrip(k, w);
    NonNegativeProduct(k as real, w, k as real * w);
    assert k as real * w <= (k + 1) as real * w;
  }

  lemma NonNegativeProduct(a: real, b: real, r: real)
    requires 0.0 <= a && 0.0 <= b && r == a * b
    ensures 0.0 <= r
  {
    assert a * b >= 0.0 * b;
  }

  /** The index list of `draw`: two triangles that split the quad along the diagonal 1-3. */
  function QuadIndices(): (r: seq<nat>)
    ensures |r| == 6
    ensures forall i :: 0 <= i < |r| ==> r[i] < |QuadCorners()|
    ensures forall c :: 0 <= c < |QuadCorners()| ==> c in r
    ensures r[0] != r[1] && r[1] != r[2] && r[0] != r[2]
    ensures r[3] != r[4] && r[4] != r[5] && r[3] != r[5]
    ensures multiset(r[..3]) * multiset(r[3..]) == multiset{1, 3}
  {
    [0, 1, 3, 1, 2, 3]
  }

  /** The eight floats of one vertex: position, colour without alpha, texture coordinate. */
  function VertexRecord(p: Vector3, c: Color, uv: TexCoord): seq<real> {
    [p.x, p.y, p.z, c.r, c.g, c.b, uv.u, uv.v]
  }

  /**
   * A vertex record keeps the position, the colour's r, g and b and the
   * texture coordinate, and forgets only the alpha: two records are equal
   * exactly when all of those agree.
   */
  lemma VertexRecordKeepsAllButAlpha(p: Vector3, c: Color, uv: TexCoord, p': Vector3, c': Color, uv': TexCoord)
    ensures VertexRecord(p, c, uv) == VertexRecord(p', c', uv') <==>
      p == p' && uv == uv' && c.r == c'.r && c.g == c'.g && c.b == c'.b
  {
    var a, b := VertexRecord(p, c, uv), VertexRecord(p', c', uv');
    if a == b {
      assert a[0] == b[0] && a[1] == b[1] && a[2] == b[2];
      assert a[3] == b[3] && a[4] == b[4] && a[5] == b[5];
      assert a[6] == b[6] && a[7] == b[7];
    }
  }

  /**
   * The interleaved vertex array of `draw`: one eight-float record per
   * corner, in corner order.
   */
  function VertexData(corners: seq<Vector3>, c: Color, uvs: seq<TexCoord>): (r: seq<real>)
    requires |corners| == |uvs|
    ensures |r| == 8 * |corners|
    ensures forall i :: 0 <= i < |corners| ==> r[8 * i..8 * i + 8] == VertexRecord(corners[i], c, uvs[i])
    decreases |corners|
  {
    if corners == [] then []
    else
      var rest := VertexData(corners[1..], c, uvs[1..]);
      var r := VertexRecord(corners[0], c, uvs[0]) + rest;
      assert forall i :: 1 <= i < |corners| ==> r[8 * i..8 * i + 8] == rest[8 * (i - 1)..8 * (i - 1) + 8];
      r
  }

  /** Reading a vertex record back out of the array: field j of corner i sits at index 8 * i + j. */
  lemma VertexDataFields(corners: seq<Vector3>, c: Color, uvs: seq<TexCoord>, i: nat)
    requires |corners| == |uvs| && i < |corners|
    ensures var r := VertexData(corners, c, uvs);
      && r[8 * i] == corners[i].x && r[8 * i + 1] == corners[i].y && r[8 * i + 2] == corners[i].z
      && r[8 * i + 3] == c.r && r[8 * i + 4] == c.g && r[8 * i + 5] == c.b
      && r[8 * i + 6] == uvs[i].u && r[8 * i + 7] == uvs[i].v
  {
    var r := VertexData(corners, c, uvs);
    var k := 8 * i;
    var rec := r[k..k + 8];
    assert rec == VertexRecord(corners[i], c, uvs[i]);
    assert r[k] == rec[0] && r[k + 1] == rec[1] && r[k + 2] == rec[2] && r[k + 3] == rec[3];
    assert r[k + 4] == rec[4] && r[k + 5] == rec[5] && r[k + 6] == rec[6] && r[k + 7] == rec[7];
  }
}
