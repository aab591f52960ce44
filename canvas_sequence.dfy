/** The canvas that shows the frame sequence: "cover" placement of a frame in its
    container, sizing of the canvas for the device pixel ratio, the guard that
    drops progress updates too small to matter, and the checks that decide
    whether a frame is drawn at all. */
module CanvasSequence {
  import opened Decimal
  import opened FrameSequence

  // ---------------------------------------------------------------------------
  // Cover geometry

  /** Where an image is drawn: top-left corner and size, in CSS pixels. */
  datatype Rect = Rect(x: real, y: real, width: real, height: real)

  /** `containerAspect > imgAspect`, i.e. `cw / ch > iw / ih`, compared without
      dividing by the container height (see `ContainerWiderAsRatio` and
      `ContainerWiderZeroHeight` for the agreement with the quotient form). */
  predicate ContainerWider(cw: real, ch: real, iw: real, ih: real) {
    cw * ih > ch * iw
  }

  /** The "cover" rectangle of `drawFrame`: an image of intrinsic size `iw`×`ih`
      placed over a `cw`×`ch` container. */
  function CoverRect(cw: real, ch: real, iw: real, ih: real): Rect
    requires cw >= 0.0 && ch >= 0.0 && iw > 0.0 && ih > 0.0
  {
    var imgAspect := iw / ih;
    if ContainerWider(cw, ch, iw, ih) then
      var drawHeight := cw / imgAspect;
      Rect(0.0, (ch - drawHeight) / 2.0, cw, drawHeight)
    else
      var drawWidth := ch * imgAspect;
      Rect((cw - drawWidth) / 2.0, 0.0, drawWidth, ch)
  }

  /** Reference definition: the smallest uniform scale at which the image covers
      the container. */
  function CoverScale(cw: real, ch: real, iw: real, ih: real): (s: real)
    requires cw >= 0.0 && ch >= 0.0 && iw > 0.0 && ih > 0.0
    ensures s >= 0.0
    ensures s * iw >= cw && s * ih >= ch
    ensures s * iw == cw || s * ih == ch
  {
    var sx, sy := cw / iw, ch / ih;
    if sx >= sy then
      ScaleMonotone(sy, sx, ih);
      sx
    else
      ScaleMonotone(sx, sy, iw);
      sy
  }

  /** The division-free comparison is the comparison of the two quotients. */
  lemma ContainerWiderAsRatio(cw: real, ch: real, iw: real, ih: real)
    requires ch > 0.0 && iw > 0.0 && ih > 0.0
    ensures ContainerWider(cw, ch, iw, ih) <==> cw / ch > iw / ih
    ensures ContainerWider(cw, ch, iw, ih) <==> cw / iw > ch / ih
  {
    var k := ch * ih;
    assert cw / ch * k == cw * ih;
    assert iw / ih * k == ch * iw;
    if cw / ch > iw / ih {
      ScaleStrict(iw / ih, cw / ch, k);
    } else {
      ScaleMonotone(cw / ch, iw / ih, k);
    }
    var m := iw * ih;
    assert cw / iw * m == cw * ih;
    assert ch / ih * m == ch * iw;
    if cw / iw > ch / ih {
      ScaleStrict(ch / ih, cw / iw, m);
    } else {
      ScaleMonotone(cw / iw, ch / ih, m);
    }
  }

  /** With a zero-height container the quotient `cw / 0` is `Infinity` (wider
      than any image) for a positive width and `NaN` (never wider) for a zero
      width; the division-free comparison gives the same answers. */
  lemma ContainerWiderZeroHeight(cw: real, iw: real, ih: real)
    requires cw >= 0.0 && iw > 0.0 && ih > 0.0
    ensures ContainerWider(cw, 0.0, iw, ih) <==> cw > 0.0
  {
    if cw > 0.0 {
      ScaleStrict(0.0, cw, ih);
    }
  }

  /** The cover rectangle is the image scaled by `CoverScale` and centred on the
      container. */
  lemma CoverRectIsScaledImage(cw: real, ch: real, iw: real, ih: real)
    requires cw >= 0.0 && ch >= 0.0 && iw > 0.0 && ih > 0.0
    ensures var r, s := CoverRect(cw, ch, iw, ih), CoverScale(cw, ch, iw, ih);
      r == Rect((cw - s * iw) / 2.0, (ch - s * ih) / 2.0, s * iw, s * ih)
  {
    var r, s := CoverRect(cw, ch, iw, ih), CoverScale(cw, ch, iw, ih);
    var imgAspect := iw / ih;
    ContainerWiderAsRatio(cw, if ch > 0.0 then ch else 1.0, iw, ih);
    if ContainerWider(cw, ch, iw, ih) {
      assert cw / iw > ch / ih by {
        if ch == 0.0 {
          ContainerWiderZeroHeight(cw, iw, ih);
        }
      }
      assert s == cw / iw;
      assert cw / imgAspect == cw / iw * ih;
    } else {
      assert !(cw / iw > ch / ih) by {
        if ch == 0.0 {
          ContainerWiderZeroHeight(cw, iw, ih);
          assert cw == 0.0;
        }
      }
      assert s == ch / ih;
      assert ch * imgAspect == ch / ih * iw;
    }
  }

  /** `r` covers a `cw`×`ch` container, has the aspect ratio of an `iw`×`ih`
      image, and is centred, so it overflows equally on both sides and starts at
      or before the container's top-left corner. */
  predicate Covers(r: Rect, cw: real, ch: real, iw: real, ih: real) {
    r.width >= cw && r.height >= ch &&
    r.width * ih == r.height * iw &&
    r.x + r.width / 2.0 == cw / 2.0 && r.y + r.height / 2.0 == ch / 2.0 &&
    r.x <= 0.0 && r.y <= 0.0
  }

  lemma CoverRectCovers(cw: real, ch: real, iw: real, ih: real)
    requires cw >= 0.0 && ch >= 0.0 && iw > 0.0 && ih > 0.0
    ensures Covers(CoverRect(cw, ch, iw, ih), cw, ch, iw, ih)
  {
    CoverRectIsScaledImage(cw, ch, iw, ih);
  }

  /** A container wider in aspect than the image is matched in width (`drawX` is
      0); otherwise, ties included, it is matched in height (`drawY` is 0). */
  lemma CoverRectMatchesOneAxis(cw: real, ch: real, iw: real, ih: real)
    requires cw >= 0.0 && ch >= 0.0 && iw > 0.0 && ih > 0.0
    ensures var r := CoverRect(cw, ch, iw, ih);
      if ContainerWider(cw, ch, iw, ih) then r.width == cw && r.x == 0.0
      else r.height == ch && r.y == 0.0
  {
  }

  /** No smaller uniform scaling of the image covers the container: any scale
      `t` that covers it gives a rectangle at least as large as the cover one. */
  lemma CoverRectIsSmallest(cw: real, ch: real, iw: real, ih: real, t: real)
    requires cw >= 0.0 && ch >= 0.0 && iw > 0.0 && ih > 0.0
    requires t * iw >= cw && t * ih >= ch
    ensures var r := CoverRect(cw, ch, iw, ih);
      r.width <= t * iw && r.height <= t * ih
  {
    CoverRectIsScaledImage(cw, ch, iw, ih);
    var s := CoverScale(cw, ch, iw, ih);
    if t < s {
      ScaleStrict(t, s, iw);
      ScaleStrict(t, s, ih);
    } else {
      ScaleMonotone(s, t, iw);
      ScaleMonotone(s, t, ih);
    }
  }

  // ---------------------------------------------------------------------------
  // Canvas sizing

  /** `window.devicePixelRatio || 1`: an absent or zero ratio becomes 1. */
  function EffectiveDpr(ratio: Option<real>): (d: real)
    requires ratio.Some? ==> ratio.value >= 0.0
    ensures d > 0.0
    ensures ratio.Some? && ratio.value > 0.0 ==> d == ratio.value
    ensures ratio.None? || ratio.value == 0.0 ==> d == 1.0
  {
    match ratio
    case Some(r) => if r != 0.0 then r else 1.0
    case None => 1.0
  }

  /** `canvas.width = containerWidth * dpr`: the canvas dimension is an integer
      attribute, so the fractional part of the product is dropped. */
  function BufferExtent(css: nat, dpr: real): (px: nat)
    requires dpr > 0.0
    ensures px as real <= css as real * dpr < px as real + 1.0
    ensures dpr == 1.0 ==> px == css
  {
    ScaleMonotone(0.0, css as real, dpr);
    (css as real * dpr).Floor
  }

  /** The template literal `${n}px`. */
  function CssSize(n: nat): string {
    ToDecimal(n) + "px"
  }

  /** A CSS size is a decimal numeral followed by "px", and the numeral reads
      back as the container dimension it was made from. */
  lemma CssSizeRoundTrip(n: nat)
    ensures var s := CssSize(n);
      |s| >= 3 && s[|s| - 2..] == "px" &&
      AllDigits(s[..|s| - 2]) && Value(s[..|s| - 2]) == n
  {
    var s := CssSize(n);
    ToDecimalDigits(n);
    ValueOfToDecimal(n);
    assert s[..|s| - 2] == ToDecimal(n);
  }

  lemma CssSizeInjective(m: nat, n: nat)
    requires CssSize(m) == CssSize(n)
    ensures m == n
  {
    CssSizeRoundTrip(m);
    CssSizeRoundTrip(n);
  }

  // ---------------------------------------------------------------------------
  // The canvas element

  /** The container `div`'s layout size, in whole CSS pixels. */
  datatype Container = Container(clientWidth: nat, clientHeight: nat)

  /** One image drawn into a rectangle after clearing the canvas. */
  datatype Drawing = Drawing(image: Image, area: Rect)

  /** Everything `drawFrame` sets on a canvas: backing-buffer size, CSS size,
      context scale and the picture shown. */
  datatype Surface = Surface(
    width: nat, height: nat,
    styleWidth: string, styleHeight: string,
    scale: real,
    picture: Option<Drawing>)

  /** Whether a lookup result may be drawn: present, finished and with a
      positive intrinsic width. */
  predicate Drawable(frame: Option<Image>) {
    frame.Some? && frame.value.complete && frame.value.naturalWidth > 0.0
  }

  /** The surface `drawFrame` leaves behind for `img` in `container`. Resizing
      the buffer resets the context, so its scale is exactly `dpr` afterwards. */
  function Painted(container: Container, dpr: real, img: Image): Surface
    requires dpr > 0.0 && img.naturalWidth > 0.0 && WellFormed(img)
  {
    var cw, ch := container.clientWidth, container.clientHeight;
    Surface(
      BufferExtent(cw, dpr), BufferExtent(ch, dpr),
      CssSize(cw), CssSize(ch),
      dpr,
      Some(Drawing(img, CoverRect(cw as real, ch as real, img.naturalWidth, img.naturalHeight))))
  }

  /** A painted surface shows the whole frame covering the container, at the
      container's CSS size (its backing buffer is sized by `BufferExtent`). */
  lemma PaintedFillsContainer(container: Container, dpr: real, img: Image)
    requires dpr > 0.0 && img.naturalWidth > 0.0 && WellFormed(img)
    ensures var s := Painted(container, dpr, img);
      var cw, ch := container.clientWidth, container.clientHeight;
      s.picture.Some? && s.picture.value.image == img &&
      Covers(s.picture.value.area, cw as real, ch as real, img.naturalWidth, img.naturalHeight) &&
      s.styleWidth == CssSize(cw) && s.styleHeight == CssSize(ch) &&
      s.scale == dpr
  {
    var cw, ch := container.clientWidth, container.clientHeight;
    CoverRectCovers(cw as real, ch as real, img.naturalWidth, img.naturalHeight);
  }

  class Canvas {
    /** Whether `getContext("2d")` yields a context. */
    const hasContext: bool
    var width: nat
    var height: nat
    var styleWidth: string
    var styleHeight: string
    var scale: real
    var picture: Option<Drawing>

    /** A fresh canvas element: 300×150, no inline size, identity transform, blank. */
    constructor(hasContext: bool)
      ensures this.hasContext == hasContext
      ensures State() == Surface(300, 150, "", "", 1.0, None)
    {
      this.hasContext := hasContext;
      width, height := 300, 150;
      styleWidth, styleHeight := "", "";
      scale := 1.0;
      picture := None;
    }

    function State(): Surface
      reads this
    {
      Surface(width, height, styleWidth, styleHeight, scale, picture)
    }
  }

  /** `drawFrame`: does nothing without a canvas, a container or a 2D context;
      otherwise resizes the canvas to the container and draws `img` over it. */
  method DrawFrame(canvas: Canvas?, container: Option<Container>, ratio: Option<real>, img: Image)
    requires ratio.Some? ==> ratio.value >= 0.0
    requires img.naturalWidth > 0.0 && WellFormed(img)
    modifies canvas
    ensures canvas != null && !(container.Some? && canvas.hasContext) ==> unchanged(canvas)
    ensures canvas != null && container.Some? && canvas.hasContext ==>
      canvas.State() == Painted(container.value, EffectiveDpr(ratio), img)
  {
    if canvas == null || container.None? {
      return;
    }
    if !canvas.hasContext {
      return;
    }
    var dpr := EffectiveDpr(ratio);
    var containerWidth := container.value.clientWidth;
    var containerHeight := container.value.clientHeight;
    canvas.width := BufferExtent(containerWidth, dpr);
    canvas.height := BufferExtent(containerHeight, dpr);
    canvas.styleWidth := CssSize(containerWidth);
    canvas.styleHeight := CssSize(containerHeight);
    canvas.scale := dpr;
    var area := CoverRect(containerWidth as real, containerHeight as real, img.naturalWidth, img.naturalHeight);
    canvas.picture := Some(Drawing(img, area));
  }

  // ---------------------------------------------------------------------------
  // The redraw guard

  const RedrawEpsilon: real := 0.001

  function Abs(x: real): (a: real)
    ensures a >= 0.0 && (a == x || a == -x)
  {
    if x < 0.0 then -x else x
  }

  /** The progress effect goes on unless `|progress - last| < 0.001`. */
  predicate ProgressAccepted(last: real, progress: real) {
    !(Abs(progress - last) < RedrawEpsilon)
  }

  /** The progress values, out of a run of updates, that get past the guard. */
  function Accepted(last: real, updates: seq<real>): seq<real>
    decreases |updates|
  {
    if updates == [] then []
    else if ProgressAccepted(last, updates[0]) then [updates[0]] + Accepted(updates[0], updates[1..])
    else Accepted(last, updates[1..])
  }

  /** Every accepted value is one of the updates. */
  lemma {:induction false} AcceptedComeFromUpdates(last: real, updates: seq<real>)
    ensures forall v :: v in Accepted(last, updates) ==> v in updates
    decreases |updates|
  {
    if updates != [] {
      var rest := updates[1..];
      AcceptedComeFromUpdates(if ProgressAccepted(last, updates[0]) then updates[0] else last, rest);
      assert forall v :: v in rest ==> v in updates;
    }
  }

  /** Each accepted value lies at least 0.001 from the one accepted before it,
      and the first at least 0.001 from the starting value. */
  lemma {:induction false} AcceptedAreSpaced(last: real, updates: seq<real>)
    ensures var acc := Accepted(last, updates);
      (|acc| > 0 ==> Abs(acc[0] - last) >= RedrawEpsilon) &&
      (forall i, j :: 0 <= i && j == i + 1 && j < |acc| ==> Abs(acc[j] - acc[i]) >= RedrawEpsilon)
    decreases |updates|
  {
    if updates != [] {
      var rest := updates[1..];
      if ProgressAccepted(last, updates[0]) {
        AcceptedAreSpaced(updates[0], rest);
        var acc, tail := Accepted(last, updates), Accepted(updates[0], rest);
        assert acc == [updates[0]] + tail;
        forall i, j | 0 <= i && j == i + 1 && j < |acc| ensures Abs(acc[j] - acc[i]) >= RedrawEpsilon {
          assert acc[j] == tail[i];
          if i > 0 {
            assert acc[i] == tail[i - 1];
          }
        }
      } else {
        AcceptedAreSpaced(last, rest);
        assert Accepted(last, updates) == Accepted(last, rest);
      }
    }
  }

  /** From the initial `-1`, the first progress in [0, 1] always gets through,
      and a value equal to the last accepted one never does. */
  lemma FirstProgressAccepted(progress: real)
    requires 0.0 <= progress <= 1.0
    ensures ProgressAccepted(-1.0, progress)
    ensures Accepted(-1.0, [progress, progress]) == [progress]
  {
    assert [progress, progress][1..] == [progress];
    assert [progress][1..] == [];
    assert Accepted(progress, [progress]) == [];
  }

  // ---------------------------------------------------------------------------
  // The component

  /** One mounted `CanvasSequence`: its frame loader, its canvas element (which
      may be missing) and the last progress value that passed the guard. */
  class CanvasSequenceView {
    const loader: FrameLoader
    const canvas: Canvas?
    var lastProgress: real

    ghost predicate Valid()
      reads this, loader
    {
      loader.Valid()
    }

    /** The component uses the hook with its default configuration. */
    constructor(canvas: Canvas?)
      ensures Valid() && fresh(loader)
      ensures loader.config == DefaultConfig && loader.frames == [] && loader.isLoading
      ensures this.canvas == canvas && lastProgress == -1.0
    {
      loader := new FrameLoader(DefaultConfig);
      this.canvas := canvas;
      lastProgress := -1.0;
    }

    /** The progress effect: returns whether a redraw is scheduled, recording the
        value when it is. */
    method OnProgress(progress: real) returns (scheduled: bool)
      modifies this
      ensures scheduled <==> ProgressAccepted(old(lastProgress), progress)
      ensures lastProgress == if scheduled then progress else old(lastProgress)
    {
      if Abs(progress - lastProgress) < RedrawEpsilon {
        return false;
      }
      lastProgress := progress;
      return true;
    }

    /** The check shared by every drawing path: draw `frame` only when it is
        drawable. */
    method DrawIfReady(frame: Option<Image>, container: Option<Container>, ratio: Option<real>)
      requires ratio.Some? ==> ratio.value >= 0.0
      requires frame.Some? ==> WellFormed(frame.value)
      modifies canvas
      ensures canvas != null && !(Drawable(frame) && container.Some? && canvas.hasContext) ==>
        unchanged(canvas)
      ensures canvas != null && Drawable(frame) && container.Some? && canvas.hasContext ==>
        canvas.State() == Painted(container.value, EffectiveDpr(ratio), frame.value)
    {
      if frame.Some? && frame.value.complete && frame.value.naturalWidth > 0.0 {
        DrawFrame(canvas, container, ratio, frame.value);
      }
    }

    /** The scheduled animation-frame callback: look the frame up and draw it. */
    method DrawAtProgress(progress: real, container: Option<Container>, ratio: Option<real>)
      requires Valid()
      requires ratio.Some? ==> ratio.value >= 0.0
      modifies canvas
      ensures var frame := loader.GetFrameByProgress(progress);
        canvas != null && Drawable(frame) && container.Some? && canvas.hasContext ==>
        canvas.State() == Painted(container.value, EffectiveDpr(ratio), frame.value)
      ensures var frame := loader.GetFrameByProgress(progress);
        canvas != null && !(Drawable(frame) && container.Some? && canvas.hasContext) ==>
        unchanged(canvas)
    {
      var frame := loader.GetFrameByProgress(progress);
      DrawIfReady(frame, container, ratio);
    }

    /** The resize listener: redraw the frame for the current progress at the
        container's new size. */
    method OnResize(progress: real, container: Option<Container>, ratio: Option<real>)
      requires Valid()
      requires ratio.Some? ==> ratio.value >= 0.0
      modifies canvas
      ensures var frame := loader.GetFrameByProgress(progress);
        canvas != null && Drawable(frame) && container.Some? && canvas.hasContext ==>
        canvas.State() == Painted(container.value, EffectiveDpr(ratio), frame.value)
      ensures var frame := loader.GetFrameByProgress(progress);
        canvas != null && !(Drawable(frame) && container.Some? && canvas.hasContext) ==>
        unchanged(canvas)
    {
      DrawAtProgress(progress, container, ratio);
    }

    /** The first-frame effect: once loading is over, draw slot 0 if it loaded. */
    method DrawFirstFrame(container: Option<Container>, ratio: Option<real>)
      requires Valid()
      requires ratio.Some? ==> ratio.value >= 0.0
      modifies canvas
      ensures canvas != null && FirstFrameReady() && container.Some? && canvas.hasContext ==>
        canvas.State() == Painted(container.value, EffectiveDpr(ratio), loader.frames[0])
      ensures canvas != null && !(FirstFrameReady() && container.Some? && canvas.hasContext) ==>
        unchanged(canvas)
    {
      if !loader.isLoading && |loader.frames| > 0 {
        var firstFrame := loader.frames[0];
        DrawIfReady(Some(firstFrame), container, ratio);
      }
    }

    /** Loading is over and slot 0 can be drawn. */
    predicate FirstFrameReady()
      reads this, loader
    {
      LoadCompleteFires() && Drawable(Some(loader.frames[0]))
    }

    /** The condition under which `onLoadComplete` is called. */
    predicate LoadCompleteFires()
      reads this, loader
    {
      !loader.isLoading && |loader.frames| > 0
    }

    /** `onLoadComplete` fires exactly when the hook reports loading finished,
        that is, when every one of the configured frames has settled. */
    lemma LoadCompleteFiresWhenDone()
      requires Valid()
      ensures LoadCompleteFires() <==> !loader.isLoading
      ensures LoadCompleteFires() <==>
        loader.hasStartedLoading && |loader.config.frameNumbers| > 0 &&
        forall i :: 0 <= i < |loader.frames| ==> loader.frames[i].complete
    {
      loader.DoneIffAllSettled();
    }
  }
}
