/**
 * `MyEngine::Animation` (src/Engine/Animation.cpp): a quad that plays the
 * frames of a sprite sheet. The object keeps the sheet layout, the playback
 * clock and the two mirror signs, and `draw` turns them into the vertex
 * record and index list handed to the renderer.
 *
 * The frame time of the global clock is passed to `Update` as a parameter.
 */
module MyEngine {
  import opened AnimationTiming
  import opened AnimationQuad

  /** C++ `int`. */
  type Int32 = x: int | InInt32(x)

  /** C++ `unsigned int`, the type of a texture handle. */
  type UInt32 = x: int | 0 <= x < 0x1_0000_0000

  predicate InInt32(x: int) {
    -0x8000_0000 <= x < 0x8000_0000
  }

  /** The sign `setMirrorX` / `setMirrorY` store: -1 when mirrored, 1 otherwise. */
  function MirrorSign(mirrored: bool): (s: int)
    ensures s == 1 || s == -1
    ensures s == -1 <==> mirrored
  {
    if mirrored then -1 else 1
  }

  /**
   * The guard of `setFrame`: a frame strictly between 0 and the frame count.
   * Every accepted frame is a valid index other than the first; frame 0 and
   * every frame of an animation with fewer than two frames are refused.
   */
  predicate AcceptsFrame(frame: int, amountFrames: int): (accepted: bool)
    ensures accepted ==> 0 <= frame < amountFrames && frame != 0
    ensures amountFrames <= 1 ==> !accepted
    ensures frame == 0 ==> !accepted
  {
    0 < frame < amountFrames
  }

  /**
   * For a sheet of columns x rows frames, each 1 / columns wide and
   * 1 / rows high, the frame sizes multiply out to area 1.
   */
  lemma FrameSizesMultiplyToOne(columns: int, rows: int)
    requires columns != 0 && rows != 0
    ensures (columns * rows) as real * (1.0 / columns as real) * (1.0 / rows as real) == 1.0
  {
    var c, r := columns as real, rows as real;
    assert (columns * rows) as real == c * r;
    assert c * (1.0 / c) == 1.0;
    assert r * (1.0 / r) == 1.0;
    assert c * r * (1.0 / c) * (1.0 / r) == (c * (1.0 / c)) * (r * (1.0 / r));
  }

  class Animation {
    var spriteSheetID: UInt32
    var currentFrame: Int32
    var amountFrames: Int32
    var frameWidth: real
    var frameHeight: real
    var elapsedTime: real
    var durationInSecs: real
    var mirrorX: Int32
    var mirrorY: Int32
    var vertex: seq<Vector3>
    var position: Vector3
    var scale: Vector3
    var color: Color

    /**
     * Both mirror signs are 1 or -1, the quad is the unit quad, and the
     * frame layout is either unset or its sizes multiply out to area 1.
     */
    ghost predicate Valid()
      reads this
    {
      && (mirrorX == 1 || mirrorX == -1)
      && (mirrorY == 1 || mirrorY == -1)
      && vertex == QuadCorners()
      && (|| (amountFrames == 0 && frameWidth == 0.0 && frameHeight == 0.0)
          || amountFrames as real * frameWidth * frameHeight == 1.0)
    }

    /** A new animation: no sheet, no frames, clock at zero, unmirrored, on the unit quad. */
    constructor(position: Vector3, scale: Vector3, color: Color)
      ensures Valid()
      ensures spriteSheetID == 0 && currentFrame == 0 && amountFrames == 0
      ensures frameWidth == 0.0 && frameHeight == 0.0
      ensures elapsedTime == 0.0 && durationInSecs == 0.0
      ensures mirrorX == 1 && mirrorY == 1
      ensures vertex == QuadCorners()
      ensures this.position == position && this.scale == scale && this.color == color
    {
      this.position := position;
      this.scale := scale;
      this.color := color;
      spriteSheetID := 0;
      currentFrame := 0;
      amountFrames := 0;
      frameWidth := 0.0;
      frameHeight := 0.0;
      elapsedTime := 0.0;
      durationInSecs := 0.0;
      mirrorX := 1;
      mirrorY := 1;
      vertex := [];
      new;
      SetVertex();
    }

    /** Pushes the four corners of the unit quad. */
    method SetVertex()
      modifies this`vertex
      ensures vertex == old(vertex) + QuadCorners()
    {
      vertex := vertex + [Vector3(1.0, 1.0, 0.0)];
      vertex := vertex + [Vector3(1.0, 0.0, 0.0)];
      vertex := vertex + [Vector3(0.0, 0.0, 0.0)];
      vertex := vertex + [Vector3(0.0, 1.0, 0.0)];
    }

    /**
     * Advances the clock by deltaTime and stores the frame it now falls
     * on, multiplied by the X-mirror sign. A zero duration is excluded:
     * fmod by zero yields NaN, whose conversion to int is undefined.
     */
    method Update(deltaTime: real)
      requires Valid() && durationInSecs != 0.0
      modifies this`elapsedTime, this`currentFrame
      ensures Valid()
      ensures elapsedTime == old(elapsedTime) + deltaTime
      ensures currentFrame == FrameFor(elapsedTime, durationInSecs, amountFrames, mirrorX)
    {
      elapsedTime := elapsedTime + deltaTime;
      var index := FrameIndex(elapsedTime, durationInSecs, amountFrames);
      currentFrame := index * mirrorX;
    }

    /**
     * Lays out a sheet of amountColumns x amountRows frames played over
     * durationInSecs. The frame and clock are left as they are.
     * A zero column or row count would make a frame size infinite and a
     * product outside the int range is undefined; both are excluded.
     */
    method SetSpriteSheet(spriteSheetID: UInt32, amountColumns: Int32, amountRows: Int32, durationInSecs: real)
      requires Valid()
      requires amountColumns != 0 && amountRows != 0 && InInt32(amountColumns * amountRows)
      modifies this`spriteSheetID, this`frameWidth, this`frameHeight, this`amountFrames, this`durationInSecs
      ensures Valid()
      ensures this.spriteSheetID == spriteSheetID
      ensures frameWidth == 1.0 / amountColumns as real && frameHeight == 1.0 / amountRows as real
      ensures amountFrames == amountColumns * amountRows
      ensures this.durationInSecs == durationInSecs
      ensures currentFrame == old(currentFrame) && elapsedTime == old(elapsedTime)
      ensures mirrorX == old(mirrorX) && mirrorY == old(mirrorY)
    {
      this.spriteSheetID := spriteSheetID;
      frameWidth := 1.0 / amountColumns as real;
      frameHeight := 1.0 / amountRows as real;
      amountFrames := amountColumns * amountRows;
      this.durationInSecs := durationInSecs;
      FrameSizesMultiplyToOne(amountColumns, amountRows);
    }

    /**
     * Shows the given frame if 0 < frame < amountFrames; otherwise leaves
     * the frame alone and reports the out-of-bounds warning.
     */
    method SetFrame(frame: Int32) returns (warned: bool)
      requires Valid()
      modifies this`currentFrame
      ensures Valid()
      ensures warned <==> !AcceptsFrame(frame, amountFrames)
      ensures currentFrame == if warned then old(currentFrame) else frame
    {
      if AcceptsFrame(frame, amountFrames) {
        currentFrame := frame;
        warned := false;
      } else {
        warned := true;
      }
    }

    method SetMirrorX(mirrorX: bool)
      requires Valid()
      modifies this`mirrorX
      ensures Valid()
      ensures this.mirrorX == MirrorSign(mirrorX)
      ensures currentFrame == old(currentFrame)
    {
      this.mirrorX := MirrorSign(mirrorX);
    }

    method SetMirrorY(mirrorY: bool)
      requires Valid()
      modifies this`mirrorY
      ensures Valid()
      ensures this.mirrorY == MirrorSign(mirrorY)
      ensures currentFrame == old(currentFrame)
    {
      this.mirrorY := MirrorSign(mirrorY);
    }

    /**
     * The data `draw` hands to the renderer: the interleaved vertex array of
     * the four corners with the colour and the current frame's texture
     * coordinates, the two triangles' indices and the sheet's texture.
     */
    method Draw() returns (vertexData: seq<real>, indices: seq<nat>, texture: UInt32)
      requires Valid()
      ensures |vertexData| == 8 * |QuadCorners()|
      ensures vertexData == VertexData(vertex, color, TexCoords(currentFrame, frameWidth, mirrorX, mirrorY))
      ensures indices == QuadIndices()
      ensures texture == spriteSheetID
    {
      var uvs := TexCoords(currentFrame, frameWidth, mirrorX, mirrorY);
      vertexData := VertexData(vertex, color, uvs);
      indices := QuadIndices();
      texture := spriteSheetID;
    }
  }

  /**
   * Playing a single-row sheet of `columns` frames forward from time 0,
   * unmirrored, the quad always shows a strip that lies inside the sheet.
   */
  lemma PlayedStripInsideSheet(t: real, d: real, columns: int)
    requires 0.0 <= t && 0.0 < d && 0 < columns
    ensures forall c <- TexCoords(FrameFor(t, d, columns, 1), 1.0 / columns as real, 1, 1) ::
      0.0 <= c.u <= 1.0 && 0.0 <= c.v <= 1.0
  {
    QuotientSign(t, d);
    var k := FrameFor(t, d, columns, 1);
    var w := 1.0 / columns as real;
    StripEndsWithinSheet(k, columns, w, (k + 1) as real * w);
    StripInsideSheet(k, w);
  }

  /** The strip of frame k < n, with frames 1 / n wide, ends at or before 1. */
  lemma StripEndsWithinSheet(k: nat, n: int, w: real, end: real)
    requires k < n && w == 1.0 / n as real && end == (k + 1) as real * w
    ensures 0.0 < w && end <= 1.0
  {
    var m := n as real;
    assert m * w == 1.0;
    assert (k + 1) as real * w <= m * w;
  }

  /** Four frames over one second: 0.26 s in, the animation shows frame 1. */
  lemma QuarterSecondExample()
    ensures FrameFor(0.26, 1.0, 4, 1) == 1
  {
    assert Trunc(0.26 / 1.0) == 0;
    assert FMod(0.26, 1.0) == 0.26;
    assert Trunc(0.26 / 1.0 * 4.0) == 1;
  }

  /** A client's use of the class: a 4 x 2 sheet, then a four-frame strip played for 0.26 s. */
  method Scenario() {
    var a := new Animation(Vector3(0.0, 0.0, 0.0), Vector3(1.0, 1.0, 1.0), Color(1.0, 1.0, 1.0, 1.0));
    a.SetSpriteSheet(3, 4, 2, 2.0);
    assert a.amountFrames == 8 && a.frameWidth == 0.25 && a.frameHeight == 0.5;
    assert a.currentFrame == 0 && a.elapsedTime == 0.0;

    var warned := a.SetFrame(0);
    assert warned && a.currentFrame == 0;
    warned := a.SetFrame(7);
    assert !warned && a.currentFrame == 7;
    warned := a.SetFrame(8);
    assert warned && a.currentFrame == 7;

    a.SetSpriteSheet(3, 4, 1, 1.0);
    a.Update(0.26);
    QuarterSecondExample();
    assert a.currentFrame == 1;
  }
}
