/** The arithmetic of the crop dialog, over exact reals: fitting the image
    into its container, the initial crop, re-clamping a proposed crop, and
    the size of the canvas the crop is drawn into. */
module CropGeometry {
  import opened Base

  /** A rectangle in displayed-image pixels (`unit: 'px'`). */
  datatype Crop = Crop(x: real, y: real, width: real, height: real)

  /** The displayed size of the image and the scale applied to reach it. */
  datatype Fit = Fit(width: real, height: real, scale: real)

  /** The name and MIME type of the chosen file. */
  datatype SourceFile = SourceFile(name: string, mime: string)

  /** The image file `getCroppedImg` produces: the canvas size, the region of
      the natural image drawn into it, and the properties of the new File. */
  datatype Rendered = Rendered(
    name: string, mime: string, quality: real, lastModified: int,
    canvasWidth: int, canvasHeight: int, source: Crop)

  /** Room left around the image inside the crop container. */
  const Padding: real := 40.0
  /** Smallest width of the initial crop. */
  const MinCropWidth: real := 50.0
  /** Share of the limiting displayed dimension the initial crop uses. */
  const InitialShare: real := 0.8
  /** Encoder quality passed to `toBlob`. */
  const Quality: real := 0.95

  function Min(a: real, b: real): real { if a <= b then a else b }
  function Max(a: real, b: real): real { if a >= b then a else b }

  /** `calculateImageSize`: the natural size scaled by the largest factor
      that fits the container less its padding, never enlarged. The natural
      aspect ratio is kept, and with room enough the natural size is used. */
  function FitImage(naturalWidth: real, naturalHeight: real, containerWidth: real, containerHeight: real): (r: Fit)
    requires naturalWidth > 0.0 && naturalHeight > 0.0
    ensures r.scale <= 1.0
    ensures r.scale <= (containerWidth - Padding) / naturalWidth
    ensures r.scale <= (containerHeight - Padding) / naturalHeight
    ensures r.scale == 1.0 || r.scale == (containerWidth - Padding) / naturalWidth
                           || r.scale == (containerHeight - Padding) / naturalHeight
    ensures r.width == naturalWidth * r.scale && r.height == naturalHeight * r.scale
    ensures r.width * naturalHeight == r.height * naturalWidth
    ensures r.width <= containerWidth - Padding && r.height <= containerHeight - Padding
    ensures containerWidth > Padding && containerHeight > Padding ==> r.width > 0.0 && r.height > 0.0
    ensures containerWidth - Padding >= naturalWidth && containerHeight - Padding >= naturalHeight ==>
              r.scale == 1.0 && r.width == naturalWidth && r.height == naturalHeight
  {
    var maxWidth := containerWidth - Padding;
    var maxHeight := containerHeight - Padding;
    var scale := Min(Min(maxWidth / naturalWidth, maxHeight / naturalHeight), 1.0);
    MulLeOfLeDiv(naturalWidth, scale, maxWidth);
    MulLeOfLeDiv(naturalHeight, scale, maxHeight);
    PositiveDiv(maxWidth, naturalWidth);
    PositiveDiv(maxHeight, naturalHeight);
    DivAtLeastOne(maxWidth, naturalWidth);
    DivAtLeastOne(maxHeight, naturalHeight);
    Fit(naturalWidth * scale, naturalHeight * scale, scale)
  }

  /** A width and a height. */
  datatype Extent = Extent(width: real, height: real)

  /** The initial crop's size before the minimum applies: 80% of the
      displayed height for an image wider than the target ratio, the width
      following the ratio; otherwise 80% of the displayed width, the height
      following. */
  function Span(displayWidth: real, displayHeight: real, aspect: real): Extent
    requires displayHeight > 0.0 && aspect > 0.0
  {
    if displayWidth / displayHeight > aspect
    then Extent(displayHeight * InitialShare * aspect, displayHeight * InitialShare)
    else Extent(displayWidth * InitialShare, displayWidth * InitialShare / aspect)
  }

  /** The crop `onImageLoad` starts with: 80% of the displayed dimension that
      limits the target ratio, at least 50px wide, with exactly the target
      ratio. When the minimum does not apply it is centred and lies inside
      the displayed image. Its corner is where the span before the minimum
      would be centred, raised to 0 if negative, so it is never negative. */
  function InitialCrop(displayWidth: real, displayHeight: real, aspect: real): (r: Crop)
    requires displayWidth > 0.0 && displayHeight > 0.0 && aspect > 0.0
    ensures r.width == r.height * aspect
    ensures r.width >= MinCropWidth
    ensures r.x >= 0.0 && r.y >= 0.0
    ensures displayWidth / displayHeight > aspect ==>
              r.height == Max(InitialShare * displayHeight, MinCropWidth / aspect)
    ensures displayWidth / displayHeight <= aspect ==>
              r.width == Max(InitialShare * displayWidth, MinCropWidth)
    ensures var span := Span(displayWidth, displayHeight, aspect);
              && r.x == Max(0.0, (displayWidth - span.width) / 2.0)
              && r.y == Max(0.0, (displayHeight - span.height) / 2.0)
    ensures r.width > MinCropWidth ==>
              && r.x == (displayWidth - r.width) / 2.0 && r.y == (displayHeight - r.height) / 2.0
              && r.x + r.width <= displayWidth && r.y + r.height <= displayHeight
  {
    var span := Span(displayWidth, displayHeight, aspect);
    var cropWidth0 := span.width;
    var cropHeight0 := span.height;
    var x := (displayWidth - cropWidth0) / 2.0;
    var y := (displayHeight - cropHeight0) / 2.0;
    InitialSpanFacts(displayWidth, displayHeight, aspect);
    ClampKeepsRatio(cropWidth0, cropHeight0, aspect, MinCropWidth);
    Crop(Max(x, 0.0), Max(y, 0.0), Max(cropWidth0, MinCropWidth), Max(cropHeight0, MinCropWidth / aspect))
  }

  /** The unclamped initial span has the target ratio and fits the
      displayed image. */
  lemma InitialSpanFacts(displayWidth: real, displayHeight: real, aspect: real)
    requires displayWidth > 0.0 && displayHeight > 0.0 && aspect > 0.0
    ensures var span := Span(displayWidth, displayHeight, aspect);
      && span.width == span.height * aspect
      && 0.0 < span.width <= displayWidth && 0.0 < span.height <= displayHeight
  {
    if displayWidth / displayHeight > aspect {
      assert displayWidth / displayHeight * displayHeight == displayWidth;
      assert displayWidth > aspect * displayHeight;
      assert displayHeight * InitialShare * aspect == InitialShare * (aspect * displayHeight);
    } else {
      assert displayWidth / displayHeight * displayHeight == displayWidth;
      assert displayWidth <= aspect * displayHeight;
      var w := displayWidth * InitialShare;
      assert w / aspect * aspect == w;
      assert w / aspect <= InitialShare * displayHeight;
    }
  }

  /** Clamping the width and the height to `m` and `m / aspect` keeps a
      rectangle of the target ratio at that ratio. */
  lemma ClampKeepsRatio(w: real, h: real, aspect: real, m: real)
    requires aspect > 0.0 && w == h * aspect
    ensures Max(w, m) == Max(h, m / aspect) * aspect
    ensures w >= m <==> h >= m / aspect
  {
    assert m / aspect * aspect == m;
    assert w - m == (h - m / aspect) * aspect;
  }

  /** What `handleCropChange` guarantees of the crop `c` it makes from a
      proposal: the corner is pulled back by as much as the proposal overhangs
      the far edge and then raised to 0 if negative, so it is never negative;
      a proposal that fits the image
      keeps its size and ends inside it (and one already inside is kept as it
      is); one wider than the image becomes as wide as the image, the height
      following the ratio; otherwise one taller becomes as tall, the width
      following; with ratio 0 the sides are only cut to the image; a proposal
      of the target ratio keeps it. */
  predicate Adjusted(proposal: Crop, imageWidth: real, imageHeight: real, aspect: real, c: Crop)
  {
    && c.x >= 0.0 && c.y >= 0.0
    && c.x == Max(0.0, Min(proposal.x, imageWidth - proposal.width))
    && c.y == Max(0.0, Min(proposal.y, imageHeight - proposal.height))
    && (proposal.width <= imageWidth && proposal.height <= imageHeight ==>
          && c.width == proposal.width && c.height == proposal.height
          && c.x + c.width <= imageWidth && c.y + c.height <= imageHeight)
    && (Inside(proposal, imageWidth, imageHeight) ==> c == proposal)
    && (aspect != 0.0 && proposal.width > imageWidth ==>
          c.x == 0.0 && c.width == imageWidth && c.height == imageWidth / aspect)
    && (aspect != 0.0 && proposal.width <= imageWidth && proposal.height > imageHeight ==>
          c.y == 0.0 && c.height == imageHeight && c.width == imageHeight * aspect)
    && (aspect == 0.0 ==>
          c.width == Min(proposal.width, imageWidth) && c.height == Min(proposal.height, imageHeight))
    && (aspect != 0.0 && proposal.width == proposal.height * aspect ==> c.width == c.height * aspect)
  }

  /** `handleCropChange`'s arithmetic: the proposal's corner is pulled back
      so that the crop starts inside the image, a side that still overhangs
      is cut, and when a side was cut the other is recomputed from the aspect
      ratio, the width taking precedence. */
  method BoundCrop(proposal: Crop, imageWidth: real, imageHeight: real, aspect: real) returns (c: Crop)
    ensures Adjusted(proposal, imageWidth, imageHeight, aspect, c)
  {
    var x := Max(0.0, Min(proposal.x, imageWidth - proposal.width));
    var y := Max(0.0, Min(proposal.y, imageHeight - proposal.height));
    var width := proposal.width;
    var height := proposal.height;
    if x + width > imageWidth {
      width := imageWidth - x;
    }
    if y + height > imageHeight {
      height := imageHeight - y;
    }
    assert width != proposal.width <==> proposal.width > imageWidth;
    assert proposal.width > imageWidth ==> x == 0.0 && width == imageWidth;
    assert height != proposal.height <==> proposal.height > imageHeight;
    assert proposal.height > imageHeight ==> y == 0.0 && height == imageHeight;
    if aspect != 0.0 && width != proposal.width {
      height := width / aspect;
    } else if aspect != 0.0 && height != proposal.height {
      width := height * aspect;
    }
    c := Crop(x, y, width, height);
  }

  /** The rectangle lies within `[0, w] x [0, h]`. */
  predicate Inside(c: Crop, w: real, h: real)
  {
    0.0 <= c.x && c.x + c.width <= w && 0.0 <= c.y && c.y + c.height <= h
  }

  /** Natural and displayed (bounding box) size of the image element. */
  datatype ImageBox = ImageBox(naturalWidth: real, naturalHeight: real, shownWidth: real, shownHeight: real)

  /** `window.devicePixelRatio || 1`. */
  function PixelRatio(devicePixelRatio: Option<real>): real
  {
    if devicePixelRatio.Some? && devicePixelRatio.value != 0.0 then devicePixelRatio.value else 1.0
  }

  /** One canvas side: the crop side mapped to natural pixels and multiplied
      by the pixel ratio, rounded down, so at most one pixel short. */
  function CanvasExtent(side: real, natural: real, shown: real, pixelRatio: real): (n: int)
    requires shown > 0.0
    ensures n as real <= side * (natural / shown) * pixelRatio < n as real + 1.0
  {
    (side * (natural / shown) * pixelRatio).Floor
  }

  /** The crop mapped into natural-image coordinates. */
  function Scaled(c: Crop, scaleX: real, scaleY: real): Crop
  {
    Crop(c.x * scaleX, c.y * scaleY, c.width * scaleX, c.height * scaleY)
  }

  /** What `getCroppedImg` produces: nothing without an image and a crop of
      non-zero width and height, a drawing context and an encoded blob;
      otherwise a file of the original name and type whose canvas is the crop
      at natural resolution times the pixel ratio (1 when the browser gives
      none), drawn from the crop scaled by natural/displayed size per axis. */
  predicate RenderedAs(image: Option<ImageBox>, crop: Option<Crop>, file: SourceFile, devicePixelRatio: Option<real>,
                       hasContext: bool, encoded: bool, now: int, out: Option<Rendered>)
    requires image.Some? ==> image.value.shownWidth > 0.0 && image.value.shownHeight > 0.0
  {
    && (out.None? <==> (|| crop.None? || image.None? || crop.value.width == 0.0 || crop.value.height == 0.0
                        || !hasContext || !encoded))
    && (out.Some? ==>
          && out.value.name == file.name && out.value.mime == file.mime
          && out.value.quality == Quality && out.value.lastModified == now
          && out.value.canvasWidth == CanvasExtent(crop.value.width, image.value.naturalWidth,
                                                   image.value.shownWidth, PixelRatio(devicePixelRatio))
          && out.value.canvasHeight == CanvasExtent(crop.value.height, image.value.naturalHeight,
                                                    image.value.shownHeight, PixelRatio(devicePixelRatio))
          && out.value.source == Scaled(crop.value, image.value.naturalWidth / image.value.shownWidth,
                                        image.value.naturalHeight / image.value.shownHeight))
  }

  /** `getCroppedImg`, with the drawing context and the blob encoder as
      given outcomes. */
  method Render(image: Option<ImageBox>, crop: Option<Crop>, file: SourceFile, devicePixelRatio: Option<real>,
                hasContext: bool, encoded: bool, now: int) returns (out: Option<Rendered>)
    requires image.Some? ==> image.value.shownWidth > 0.0 && image.value.shownHeight > 0.0
    ensures RenderedAs(image, crop, file, devicePixelRatio, hasContext, encoded, now, out)
  {
    if crop.None? || image.None? || crop.value.width == 0.0 || crop.value.height == 0.0 {
      return None;
    }
    if !hasContext {
      return None;
    }
    var img, c := image.value, crop.value;
    var scaleX := img.naturalWidth / img.shownWidth;
    var scaleY := img.naturalHeight / img.shownHeight;
    var pixelRatio := PixelRatio(devicePixelRatio);
    var canvasWidth := (c.width * scaleX * pixelRatio).Floor;
    var canvasHeight := (c.height * scaleY * pixelRatio).Floor;
    var source := Crop(c.x * scaleX, c.y * scaleY, c.width * scaleX, c.height * scaleY);
    if !encoded {
      return None;
    }
    out := Some(Rendered(file.name, file.mime, Quality, now, canvasWidth, canvasHeight, source));
  }

  /** A 2000px-wide image shown 500px wide (scale 4): a crop 100px wide gives
      a canvas 400 times the pixel ratio wide, rounded down. */
  lemma CanvasWidthAtScaleFour(pixelRatio: real)
    ensures CanvasExtent(100.0, 2000.0, 500.0, pixelRatio) == (400.0 * pixelRatio).Floor
  {
  }

  /** A 1200x800 image in a 640x440 container with ratio 1.78: shown at
      600x400, which is narrower than 1.78, so the initial crop takes 80% of
      the width, 480 x 480/1.78, centred; its canvas at pixel ratio 1 is
      960 x 539. */
  lemma LandscapeExample()
    ensures FitImage(1200.0, 800.0, 640.0, 440.0) == Fit(600.0, 400.0, 0.5)
    ensures InitialCrop(600.0, 400.0, 1.78) == Crop(60.0, 5800.0 / 89.0, 480.0, 24000.0 / 89.0)
    ensures CanvasExtent(480.0, 1200.0, 600.0, 1.0) == 960
    ensures CanvasExtent(24000.0 / 89.0, 800.0, 400.0, 1.0) == 539
  {
  }

  /** The 50px minimum can push the initial crop out of a small image: a
      20x20 image gets a 50x50 crop at (2, 2), centred on the 16px span
      before the minimum applied. */
  lemma SmallImageCropOverhangs()
    ensures InitialCrop(20.0, 20.0, 1.0) == Crop(2.0, 2.0, 50.0, 50.0)
    ensures !Inside(InitialCrop(20.0, 20.0, 1.0), 20.0, 20.0)
  {
  }

  /** Cutting an overwide proposal to the image width and then restoring
      the ratio can leave the crop taller than the image: a 200x50 proposal
      on a 100x40 image at ratio 1 becomes 100x100, whatever its corner. */
  lemma WidthClampCanLeaveImage(c: Crop)
    requires Adjusted(Crop(0.0, 0.0, 200.0, 50.0), 100.0, 40.0, 1.0, c)
    ensures c.height == 100.0 && !Inside(c, 100.0, 40.0)
  {
  }

  lemma MulLeOfLeDiv(a: real, b: real, c: real)
    requires a > 0.0 && b <= c / a
    ensures a * b <= c
  {
    assert a * (c / a) == c;
    assert a * b <= a * (c / a);
  }

  lemma PositiveDiv(a: real, b: real)
    requires b > 0.0
    ensures a > 0.0 ==> a / b > 0.0
  {
  }

  lemma DivAtLeastOne(a: real, b: real)
    requires b > 0.0
    ensures a >= b ==> a / b >= 1.0
  {
    assert a / b * b == a;
  }
}
