/**
 * `RasterCanvas`: a canvas painted from frames drawn into an offscreen
 * accelerated image. Modelled here are the frame lifecycle
 * (`startFrame`/`continueFrame`/`finish`), the keep-or-recreate
 * decision for accelerated images, the frame size, the rendered bounds
 * without aspect correction and the cursor hit test.
 *
 * The component's current size and the outcome of
 * `VolatileImage.validate` belong to the toolkit; they are parameters.
 * Disposal, flushing, painting and repainting are recorded in `events`.
 */
module Raster {
  import opened JavaLang

  datatype Transparency = OPAQUE | BITMASK | TRANSLUCENT

  /** What `VolatileImage.validate` reports. */
  datatype ValidateStatus = IMAGE_OK | IMAGE_RESTORED | IMAGE_INCOMPATIBLE

  /** An accelerated offscreen image; `id` tells images apart. */
  datatype VolatileImage = VolatileImage(id: nat, width: int, height: int, transparency: Transparency)

  /** A drawing context on the image numbered `target`. */
  datatype Graphics2D = Graphics2D(id: nat, target: nat)

  datatype ResamplingType = NEAREST | LINEAR | BILINEAR | TRILINEAR

  datatype Dimension = Dimension(width: int32, height: int32)

  datatype Point = Point(x: int32, y: int32)

  /** Side effects on the toolkit, in the order they happen. */
  datatype CanvasEvent =
    | GraphicsDisposed(graphicsId: nat)
    | ImageFlushed(imageId: nat)
    /** The frame image (if any) drawn into the canvas image. */
    | FramePainted(canvasImageId: nat, frameImageId: Option<nat>)
    | Repainted
    /** `update` copied the canvas image to the screen. */
    | CanvasDrawn(imageId: nat)

  /* ---------------------------------------------------------------- */
  /* Keeping or recreating an accelerated image                        */
  /* ---------------------------------------------------------------- */

  /** The current image can be kept: it exists, validates and has the requested size. */
  predicate Revalidate(current: Option<VolatileImage>, status: ValidateStatus, width: int, height: int) {
    if current.None? then false
    else match status
      case IMAGE_INCOMPATIBLE => false
      case _ => current.value.width == width && current.value.height == height
  }

  /** What `recreateVolatileImage` returns, and the image it flushed, if any. */
  datatype Recreation = Recreation(image: Option<VolatileImage>, flushed: Option<nat>)

  /**
   * Keeps the current image when it revalidates; otherwise flushes it
   * and creates one (numbered `freshId`) only for a positive size.
   */
  function RecreateVolatileImage(current: Option<VolatileImage>, status: ValidateStatus,
      width: int, height: int, transparency: Transparency, freshId: nat): (r: Recreation)
    ensures Revalidate(current, status, width, height) ==> r.image == current && r.flushed.None?
    ensures !Revalidate(current, status, width, height) ==>
      && r.flushed == (if current.Some? then Some(current.value.id) else None)
      && (r.image.Some? <==> width > 0 && height > 0)
      && (r.image.Some? ==> r.image.value == VolatileImage(freshId, width, height, transparency))
    ensures r.image.Some? ==> r.image.value.width == width && r.image.value.height == height
  {
    if Revalidate(current, status, width, height) then Recreation(current, None)
    else
      var flushed := if current.Some? then Some(current.value.id) else None;
      if width > 0 && height > 0 then
        Recreation(Some(VolatileImage(freshId, width, height, transparency)), flushed)
      else
        Recreation(None, flushed)
  }

  /** An image just made or kept is kept by the next request for the same size while it validates. */
  lemma RecreateIsStable(current: Option<VolatileImage>, status: ValidateStatus, status': ValidateStatus,
      width: int, height: int, transparency: Transparency, freshId: nat, freshId': nat)
    requires status' != IMAGE_INCOMPATIBLE
    ensures var r := RecreateVolatileImage(current, status, width, height, transparency, freshId);
      RecreateVolatileImage(r.image, status', width, height, transparency, freshId') == Recreation(r.image, None) ||
      r.image.None?
  {
  }

  /* ---------------------------------------------------------------- */
  /* Out-parameters                                                    */
  /* ---------------------------------------------------------------- */

  /** `java.awt.Rectangle`, written by `setBounds`. */
  class Rectangle {
    var x: int
    var y: int
    var width: int
    var height: int

    constructor ()
      ensures x == 0 && y == 0 && width == 0 && height == 0
    {
      x, y, width, height := 0, 0, 0, 0;
    }

    method SetBounds(x: int, y: int, width: int, height: int)
      modifies this
      ensures this.x == x && this.y == y && this.width == width && this.height == height
    {
      this.x, this.y, this.width, this.height := x, y, width, height;
    }
  }

  /** A `java.awt.Point` used as an out-parameter. */
  class PointOut {
    var x: int
    var y: int

    constructor (x: int, y: int)
      ensures this.x == x && this.y == y
    {
      this.x, this.y := x, y;
    }
  }

  /* ---------------------------------------------------------------- */
  /* The canvas                                                        */
  /* ---------------------------------------------------------------- */

  class RasterCanvas {
    /** The frame size, when the canvas was made with one; else the component size is used. */
    const renderDimensions: Option<Dimension>
    const correctAspect: bool
    var resamplingType: Option<ResamplingType>
    var canvasBuffer: Option<VolatileImage>
    var writableBuffer: Option<VolatileImage>
    var writableGraphics: Option<Graphics2D>
    /** The next number for a new image or context. */
    var nextId: nat
    var events: seq<CanvasEvent>

    /** An open context draws on the current frame image, and every number in use was issued. */
    ghost predicate Valid()
      reads this
    {
      && (writableGraphics.Some? ==>
            writableBuffer.Some? && writableGraphics.value.target == writableBuffer.value.id &&
            writableGraphics.value.id < nextId)
      && (writableBuffer.Some? ==> writableBuffer.value.id < nextId)
      && (canvasBuffer.Some? ==> canvasBuffer.value.id < nextId)
    }

    /** The renderable area is the whole component. */
    constructor ()
      ensures Valid()
      ensures renderDimensions.None? && !correctAspect && resamplingType.None?
      ensures canvasBuffer.None? && writableBuffer.None? && writableGraphics.None? && events == []
    {
      renderDimensions := None;
      correctAspect := false;
      resamplingType := None;
      canvasBuffer := None;
      writableBuffer := None;
      writableGraphics := None;
      nextId := 0;
      events := [];
    }

    /** A fixed renderable area of `x` by `y`, optionally kept at its aspect ratio. */
    constructor WithRenderSize(x: int32, y: int32, correctAspect: bool)
      ensures Valid()
      ensures renderDimensions == Some(Dimension(x, y)) && this.correctAspect == correctAspect && resamplingType.None?
      ensures canvasBuffer.None? && writableBuffer.None? && writableGraphics.None? && events == []
    {
      renderDimensions := Some(Dimension(x, y));
      this.correctAspect := correctAspect;
      resamplingType := None;
      canvasBuffer := None;
      writableBuffer := None;
      writableGraphics := None;
      nextId := 0;
      events := [];
    }

    method SetResamplingType(resamplingType: Option<ResamplingType>)
      modifies this
      ensures this.resamplingType == resamplingType
      ensures canvasBuffer == old(canvasBuffer) && writableBuffer == old(writableBuffer)
      ensures writableGraphics == old(writableGraphics) && nextId == old(nextId) && events == old(events)
    {
      this.resamplingType := resamplingType;
    }

    /** The frame width: the render width if one was given, else the component width. */
    function GetFrameWidth(componentWidth: int32): (w: int32)
      ensures renderDimensions.Some? ==> w == renderDimensions.value.width
      ensures renderDimensions.None? ==> w == componentWidth
    {
      if renderDimensions.Some? then renderDimensions.value.width else componentWidth
    }

    function GetFrameHeight(componentHeight: int32): (h: int32)
      ensures renderDimensions.Some? ==> h == renderDimensions.value.height
      ensures renderDimensions.None? ==> h == componentHeight
    {
      if renderDimensions.Some? then renderDimensions.value.height else componentHeight
    }

    /** Disposes the open context, if any. */
    method DisposeWritableGraphics()
      requires Valid()
      modifies this
      ensures Valid()
      ensures writableGraphics.None?
      ensures events == old(events) + (if old(writableGraphics).Some? then [GraphicsDisposed(old(writableGraphics).value.id)] else [])
      ensures canvasBuffer == old(canvasBuffer) && writableBuffer == old(writableBuffer)
      ensures nextId == old(nextId) && resamplingType == old(resamplingType)
    {
      if writableGraphics.Some? {
        events := events + [GraphicsDisposed(writableGraphics.value.id)];
        writableGraphics := None;
      }
    }

    /**
     * Starts a frame: disposes the open context, keeps or recreates the
     * frame image at frame size (translucent) and opens a new context
     * on it. With no frame image (a size not positive) the context
     * cannot be created: a `NullPointerException`, and no context is open.
     */
    method StartFrame(status: ValidateStatus, componentWidth: int32, componentHeight: int32) returns (r: Result<Graphics2D>)
      requires Valid()
      modifies this
      ensures Valid()
      ensures var rec := RecreateVolatileImage(old(writableBuffer), status,
          GetFrameWidth(componentWidth), GetFrameHeight(componentHeight), TRANSLUCENT, old(nextId));
        && writableBuffer == rec.image
        && events == old(events)
             + (if old(writableGraphics).Some? then [GraphicsDisposed(old(writableGraphics).value.id)] else [])
             + (if rec.flushed.Some? then [ImageFlushed(rec.flushed.value)] else [])
        && (rec.image.None? ==> r == Throws(NullPointer) && writableGraphics.None?)
        && (rec.image.Some? ==>
              && r.Ok? && writableGraphics == Some(r.value)
              && r.value.target == rec.image.value.id
              && r.value.id >= old(nextId))
      ensures canvasBuffer == old(canvasBuffer) && resamplingType == old(resamplingType)
    {
      DisposeWritableGraphics();
      var rec := RecreateVolatileImage(writableBuffer, status,
        GetFrameWidth(componentWidth), GetFrameHeight(componentHeight), TRANSLUCENT, nextId);
      if rec.flushed.Some? {
        events := events + [ImageFlushed(rec.flushed.value)];
      }
      if rec.image.Some? && rec.image != writableBuffer {
        nextId := nextId + 1;
      }
      writableBuffer := rec.image;
      if writableBuffer.None? {
        return Throws(NullPointer);
      }
      var g := Graphics2D(nextId, writableBuffer.value.id);
      nextId := nextId + 1;
      writableGraphics := Some(g);
      return Ok(g);
    }

    /** The context of the frame in progress; null before the first frame and after `finish`. */
    function ContinueFrame(): (g: Option<Graphics2D>)
      reads this
      requires Valid()
      ensures g.Some? ==> writableBuffer.Some? && g.value.target == writableBuffer.value.id
    {
      writableGraphics
    }

    /**
     * Commits the frame: disposes the open context, keeps or recreates
     * the canvas image at component size (opaque) and, only when there
     * is one, paints the frame into it and asks for a repaint.
     */
    method Finish(status: ValidateStatus, componentWidth: int32, componentHeight: int32)
      requires Valid()
      modifies this
      ensures Valid()
      ensures writableGraphics.None?
      ensures var rec := RecreateVolatileImage(old(canvasBuffer), status,
          componentWidth, componentHeight, OPAQUE, old(nextId));
        && canvasBuffer == rec.image
        && events == old(events)
             + (if old(writableGraphics).Some? then [GraphicsDisposed(old(writableGraphics).value.id)] else [])
             + (if rec.flushed.Some? then [ImageFlushed(rec.flushed.value)] else [])
             + (if rec.image.Some? then
                  [FramePainted(rec.image.value.id, if writableBuffer.Some? then Some(writableBuffer.value.id) else None),
                   Repainted]
                else [])
      ensures writableBuffer == old(writableBuffer) && resamplingType == old(resamplingType)
    {
      DisposeWritableGraphics();
      var rec := RecreateVolatileImage(canvasBuffer, status, componentWidth, componentHeight, OPAQUE, nextId);
      if rec.flushed.Some? {
        events := events + [ImageFlushed(rec.flushed.value)];
      }
      if rec.image.Some? && rec.image != canvasBuffer {
        nextId := nextId + 1;
      }
      canvasBuffer := rec.image;
      if canvasBuffer.Some? {
        var frame := if writableBuffer.Some? then Some(writableBuffer.value.id) else None;
        events := events + [FramePainted(canvasBuffer.value.id, frame), Repainted];
      }
    }

    /** Copies the canvas image to the screen, only when there is one. */
    method Update()
      modifies this
      ensures events == old(events) + (if canvasBuffer.Some? then [CanvasDrawn(canvasBuffer.value.id)] else [])
      ensures canvasBuffer == old(canvasBuffer) && writableBuffer == old(writableBuffer)
      ensures writableGraphics == old(writableGraphics) && nextId == old(nextId)
      ensures resamplingType == old(resamplingType)
    {
      if canvasBuffer.Some? {
        events := events + [CanvasDrawn(canvasBuffer.value.id)];
      }
    }

    /** Without aspect correction the frame covers the whole canvas. */
    method GetRenderedCanvasDimensions(dimensionsIn: Dimension, dimensionsOut: Rectangle)
      requires !correctAspect
      modifies dimensionsOut
      ensures dimensionsOut.x == 0 && dimensionsOut.y == 0
      ensures dimensionsOut.width == dimensionsIn.width && dimensionsOut.height == dimensionsIn.height
    {
      var x := 0;
      var y := 0;
      var width := dimensionsIn.width;
      var height := dimensionsIn.height;
      dimensionsOut.SetBounds(x, y, width, height);
    }

    /**
     * Maps a component point to frame pixels. Outside the half-open box
     * `[x, x + width) × [y, y + height)` of the rendered bounds it returns
     * false and leaves the output alone; inside it writes the scaled
     * point, which lies in the frame, and returns true.
     */
    method GetFrameCursorCoordinates(canvasCoordsIn: Point, imageCoordsOut: PointOut,
        componentWidth: int32, componentHeight: int32) returns (inside: bool)
      requires !correctAspect
      modifies imageCoordsOut
      ensures inside <==> 0 <= canvasCoordsIn.x < componentWidth && 0 <= canvasCoordsIn.y < componentHeight
      ensures !inside ==> imageCoordsOut.x == old(imageCoordsOut.x) && imageCoordsOut.y == old(imageCoordsOut.y)
      ensures inside ==>
        && imageCoordsOut.x == canvasCoordsIn.x * GetFrameWidth(componentWidth) / componentWidth
        && imageCoordsOut.y == canvasCoordsIn.y * GetFrameHeight(componentHeight) / componentHeight
      ensures inside && GetFrameWidth(componentWidth) > 0 ==> 0 <= imageCoordsOut.x < GetFrameWidth(componentWidth)
      ensures inside && GetFrameHeight(componentHeight) > 0 ==> 0 <= imageCoordsOut.y < GetFrameHeight(componentHeight)
    {
      var imageBounds := new Rectangle();
      GetRenderedCanvasDimensions(Dimension(componentWidth, componentHeight), imageBounds);
      if canvasCoordsIn.x < imageBounds.x {
        return false;
      }
      if canvasCoordsIn.x >= imageBounds.x + imageBounds.width {
        return false;
      }
      if canvasCoordsIn.y < imageBounds.y {
        return false;
      }
      if canvasCoordsIn.y >= imageBounds.y + imageBounds.height {
        return false;
      }
      var frameWidth := GetFrameWidth(componentWidth);
      var frameHeight := GetFrameHeight(componentHeight);
      ScaledBelow(canvasCoordsIn.x - imageBounds.x, imageBounds.width, frameWidth);
      ScaledBelow(canvasCoordsIn.y - imageBounds.y, imageBounds.height, frameHeight);
      imageCoordsOut.x := (canvasCoordsIn.x - imageBounds.x) * frameWidth / imageBounds.width;
      imageCoordsOut.y := (canvasCoordsIn.y - imageBounds.y) * frameHeight / imageBounds.height;
      return true;
    }
  }

  /** A point `offset` of `extent` scaled to `size` lands in `[0, size)`. */
  lemma ScaledBelow(offset: int, extent: int, size: int)
    requires 0 <= offset < extent
    ensures size > 0 ==> 0 <= offset * size / extent < size
  {
    if size > 0 {
      assert offset * size < extent * size by {
        assert (extent - offset) * size > 0;
      }
      assert 0 <= offset * size;
      DivBelow(offset * size, extent, size);
    }
  }

  lemma DivBelow(a: int, b: int, c: int)
    requires 0 <= a < b * c && b > 0
    ensures a / b < c
  {
    var q := a / b;
    assert b * q <= a;
    MulStrict(b, q, c);
  }

  lemma MulStrict(b: int, q: int, c: int)
    requires b > 0
    ensures b * q < b * c ==> q < c
  {
  }
}
