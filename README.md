# Scroll-scrubbed frame sequence — a Dafny model

The site's hero section plays a video by scrolling: a hook preloads 130
still frames, and a canvas component draws the frame that matches the
current scroll progress. This project models the logic behind that.

- **`useFrameSequence`** (`frame_sequence.dfy`, module `FrameSequence`):
  - Frame naming. `padFrameNumber` and `buildFrameUrl` are built on
    `Number.prototype.toString` and `String.prototype.padStart`, which are
    modelled in `decimal.dfy` (module `Decimal`).
  - The default frame list `AVAILABLE_FRAMES`.
  - The preload effect. It creates one image per frame number, in order.
    Its load and error handlers share one counter, and `isLoading` clears when
    the counter reaches the number of frames. The `hasStartedLoading` guard
    makes it run once.
  - `loadProgress` and `getFrameByProgress`. The latter clamps progress to
    [0, 1] and maps it to slot `floor(p * (N - 1))`.
- **`CanvasSequence`** (`canvas_sequence.dfy`, module `CanvasSequence`):
  - `drawFrame`: the "cover" rectangle that places a frame over its container,
    and the sizing of the canvas for the device pixel ratio.
  - The `lastProgressRef` guard, which drops progress changes smaller than 0.001.
  - The check shared by the three drawing paths: a frame is drawn only when it
    is present, `complete` and has `naturalWidth > 0`. The three paths are the
    animation-frame callback, the resize listener and the first-frame effect.
  - The condition that fires `onLoadComplete`.

How the model is built:

- An image element is a value, `Image(src, complete, naturalWidth, naturalHeight)`.
- When a `load` or `error` event fires, the browser settles one image. The
  loader's `OnLoad`/`OnError` methods apply that update and then run the
  handler body.
- The class invariant `FrameLoader.Valid` ties the counter to the number of
  settled images. So "the counter reached N" is proved to mean "every frame
  has loaded or failed".
- The canvas element is a class whose fields are what `drawFrame` assigns.
  `Painted` is the surface `drawFrame` must produce. `DrawFrame` is proved to
  produce exactly that surface, or to leave the canvas untouched when the
  canvas, the container or the 2D context is missing.
- The aspect comparison `containerWidth / containerHeight > imgAspect` is
  written without division, as `cw * ih > ch * iw`. Two lemmas show it agrees
  with the quotient form:
  - for a positive height the two comparisons are the same;
  - for a zero-height container, JavaScript's `Infinity`/`NaN` comparisons
    give the same answers as the division-free form.
- `drawFrame` clears the canvas and draws one image.

## Model

| member | source | states |
|---|---|---|
| Decimal.ToDecimal | src/hooks/useFrameSequence.ts:56 | `toString()` of a whole number below 10^21; its contract is stated by `ToDecimalDigits`, `ValueOfToDecimal` and `ToDecimalLength` |
| Decimal.ToDecimalDigits | src/hooks/useFrameSequence.ts:56 | `toString()` of a natural is a non-empty run of digits with no leading zero unless the number is 0 |
| Decimal.ValueOfToDecimal | src/hooks/useFrameSequence.ts:56 | reading the decimal numeral back gives the number (round trip) |
| Decimal.ToDecimalInjective | src/hooks/useFrameSequence.ts:56 | distinct numbers have distinct numerals |
| Decimal.ToDecimalLength | src/hooks/useFrameSequence.ts:56 | the numeral fits in `k` characters exactly when the number is below 10^k |
| Decimal.PadStart | src/hooks/useFrameSequence.ts:56 | `padStart(width, fill)`; its contract is stated by `PadStartShape` and `ValueOfZeroPadded` |
| Decimal.PadStartShape | src/hooks/useFrameSequence.ts:56 | `padStart(width, fill)` gives length `max(width, len)`, ends with the original string and is `fill` before it |
| Decimal.ValueOfZeroPadded | src/hooks/useFrameSequence.ts:56 | zero padding keeps the denoted number |
| FrameSequence.NewImage | src/hooks/useFrameSequence.ts:98-99 | a freshly created image has the given `src` and is not yet complete |
| FrameSequence.PadFrameNumber | src/hooks/useFrameSequence.ts:55-57 | `padFrameNumber`; its contract is stated by `PadFrameNumberShape` and `PadFrameNumberInjective` |
| FrameSequence.PadFrameNumberShape | src/hooks/useFrameSequence.ts:53-57 | the padded number has at least 3 digits: exactly 3 for n ≤ 999, the plain numeral for n ≥ 1000, and it still denotes n |
| FrameSequence.PadFrameNumberInjective | src/hooks/useFrameSequence.ts:55-57 | distinct frame numbers pad to distinct strings |
| FrameSequence.Assemble | src/hooks/useFrameSequence.ts:63 | the URL template literal; its contract is stated by `AssembleParts` |
| FrameSequence.BuildFrameUrl | src/hooks/useFrameSequence.ts:62-64 | `buildFrameUrl`; its contract is stated by `BuildFrameUrlParts` and `BuildFrameUrlInjective` |
| FrameSequence.AssembleParts | src/hooks/useFrameSequence.ts:63 | the URL template is `basePath`, then `"/" + prefix`, then the frame field, then `"." + extension` |
| FrameSequence.BuildFrameUrlParts | src/hooks/useFrameSequence.ts:62-64 | a frame URL starts with `basePath`, continues with `"/" + prefix`, then holds `padFrameNumber(n)`, and ends with `"." + extension` |
| FrameSequence.BuildFrameUrlInjective | src/hooks/useFrameSequence.ts:62-64 | under one configuration, distinct frame numbers get distinct URLs |
| FrameSequence.AvailableFramesAscending | src/hooks/useFrameSequence.ts:30-40 | the default list has 130 entries, all in 1..999, strictly ascending |
| FrameSequence.DefaultFrameUrls | src/hooks/useFrameSequence.ts:45-50 | every default URL has a 3-digit frame field, and no two default frames share a URL |
| FrameSequence.Clamp01 | src/hooks/useFrameSequence.ts:135 | the clamped progress is in [0, 1], equals the input inside that range, and is 0 below it and 1 above it |
| FrameSequence.FrameIndex | src/hooks/useFrameSequence.ts:138 | the index is in bounds and is the floor of `clamped * (N - 1)`; progress ≤ 0 gives 0 and progress ≥ 1 gives N - 1 |
| FrameSequence.FrameAt | src/hooks/useFrameSequence.ts:130-143 | lookup gives null exactly for an empty list; otherwise slot `FrameIndex`, the first slot at p ≤ 0 and the last at p ≥ 1 |
| FrameSequence.FrameIndexMonotone | src/hooks/useFrameSequence.ts:135-138 | more progress never selects an earlier frame |
| FrameSequence.FrameIndexReaches | src/hooks/useFrameSequence.ts:138 | every slot is selected by some progress value (slot k by k / (N - 1)) |
| FrameSequence.FiveFramesHalfway | src/hooks/useFrameSequence.ts:130-143 | with five frames, progress 0.5 selects the third |
| FrameSequence.LoadFraction | src/hooks/useFrameSequence.ts:148 | `loadProgress` is 0 for an empty list; otherwise it is `loaded / N`, lies in [0, 1] while `loaded ≤ N`, and is 1 exactly at completion |
| FrameSequence.LoadFractionMonotone | src/hooks/useFrameSequence.ts:148 | load progress never decreases as the count grows |
| FrameSequence.Loaded | src/hooks/useFrameSequence.ts:101-108 | the image a `load` event leaves behind keeps its `src`, is complete, and is well-formed for a valid intrinsic size; used by `FrameLoader.OnLoad` |
| FrameSequence.Broken | src/hooks/useFrameSequence.ts:110-118 | the image an `error` event leaves behind keeps its `src`, is complete and has no intrinsic size, so it is never drawn; used by `FrameLoader.OnError` |
| FrameSequence.CountComplete | src/hooks/useFrameSequence.ts:101-118 | the number of settled slots, never more than the slots; its contract is stated by `CountCompleteAll` and `CountCompleteSettle` |
| FrameSequence.CountCompleteAll | src/hooks/useFrameSequence.ts:101-118 | the settled count equals N exactly when every slot has settled; with none settled it is 0 |
| FrameSequence.CountCompleteSettle | src/hooks/useFrameSequence.ts:101-118 | settling one pending slot adds exactly one to the settled count |
| FrameSequence.CreateImages | src/hooks/useFrameSequence.ts:97-121 | one fresh image per frame number, same length and same order: slot i is the image for `frameNumbers[i]` |
| FrameSequence.FrameLoader.Valid | src/hooks/useFrameSequence.ts:101-118 | the hook invariant: slot i has the URL of `frameNumbers[i]`, the counter equals the settled slots, `isLoading` is false exactly when that count reaches N > 0; kept by every method of `FrameLoader` |
| FrameSequence.FrameLoader.constructor | src/hooks/useFrameSequence.ts:81-86 | the hook starts with no frames, count 0, `isLoading` true and loading not started |
| FrameSequence.FrameLoader.StartLoading | src/hooks/useFrameSequence.ts:89-124 | the first run creates all slots, unsettled, with loading in progress; any later run changes nothing |
| FrameSequence.FrameLoader.Settle | src/hooks/useFrameSequence.ts:101-118 | the shared handler body: the count goes up by exactly 1 and `isLoading` clears exactly when the count reaches N; the invariant is kept |
| FrameSequence.FrameLoader.OnLoad | src/hooks/useFrameSequence.ts:101-108 | a load event settles its slot with the intrinsic size and bumps the count by 1 |
| FrameSequence.FrameLoader.OnError | src/hooks/useFrameSequence.ts:110-118 | an error event settles its slot as broken (0×0) and bumps the count by 1, the same as a load |
| FrameSequence.FrameLoader.LoadProgress | src/hooks/useFrameSequence.ts:148 | the reported progress lies in [0, 1] and is 1 once loading is over |
| FrameSequence.FrameLoader.GetFrameByProgress | src/hooks/useFrameSequence.ts:130-143 | gives null exactly when there are no frames; otherwise one of the hook's own, well-formed images |
| FrameSequence.FrameLoader.DoneIffAllSettled | src/hooks/useFrameSequence.ts:101-118 | loading is over exactly when every configured frame has loaded or failed; with no frames configured it never ends |
| CanvasSequence.ContainerWider | src/components/CanvasSequence.tsx:92 | the branch test `containerAspect > imgAspect`; its contract is stated by `ContainerWiderAsRatio` and `ContainerWiderZeroHeight` |
| CanvasSequence.CoverRect | src/components/CanvasSequence.tsx:84-104 | the cover rectangle; its contract is stated by `CoverRectIsScaledImage`, `CoverRectCovers`, `CoverRectMatchesOneAxis` and `CoverRectIsSmallest` |
| CanvasSequence.ContainerWiderAsRatio | src/components/CanvasSequence.tsx:84-92 | for a positive container height, the division-free test agrees with `containerAspect > imgAspect` |
| CanvasSequence.ContainerWiderZeroHeight | src/components/CanvasSequence.tsx:85-92 | for a zero-height container, the test is true exactly for a positive width (JavaScript's `Infinity > a` versus `NaN > a`) |
| CanvasSequence.CoverScale | src/components/CanvasSequence.tsx:84-104 | the reference scale covers the container and matches it on at least one axis |
| CanvasSequence.CoverRectIsScaledImage | src/components/CanvasSequence.tsx:84-104 | the cover rectangle is the image scaled by `max(cw/iw, ch/ih)` and centred on the container |
| CanvasSequence.CoverRectCovers | src/components/CanvasSequence.tsx:84-104 | `drawWidth ≥ containerWidth` and `drawHeight ≥ containerHeight`; the aspect ratio is kept; the rectangle is centred with `drawX, drawY ≤ 0` |
| CanvasSequence.CoverRectMatchesOneAxis | src/components/CanvasSequence.tsx:92-104 | a wider container gives `drawWidth = containerWidth` and `drawX = 0`; otherwise, ties included, `drawHeight = containerHeight` and `drawY = 0` |
| CanvasSequence.CoverRectIsSmallest | src/components/CanvasSequence.tsx:84-104 | no smaller uniform scaling of the image covers the container |
| CanvasSequence.EffectiveDpr | src/components/CanvasSequence.tsx:66 | the ratio used is positive: the device's ratio when positive, else 1 |
| CanvasSequence.BufferExtent | src/components/CanvasSequence.tsx:73-74 | the backing-buffer extent is `floor(css * dpr)`, and equals the CSS size at ratio 1 |
| CanvasSequence.CssSize | src/components/CanvasSequence.tsx:77-78 | the style value `${n}px`; its contract is stated by `CssSizeRoundTrip` and `CssSizeInjective` |
| CanvasSequence.CssSizeRoundTrip | src/components/CanvasSequence.tsx:77-78 | the style size is a numeral followed by `px` that reads back as the container dimension |
| CanvasSequence.CssSizeInjective | src/components/CanvasSequence.tsx:77-78 | different container sizes give different style strings |
| CanvasSequence.Painted | src/components/CanvasSequence.tsx:72-108 | the surface `drawFrame` produces; its contract is stated by `PaintedFillsContainer`, `BufferExtent` and `CssSizeRoundTrip` |
| CanvasSequence.PaintedFillsContainer | src/components/CanvasSequence.tsx:72-108 | after a draw, the canvas shows the given frame covering the container, at the container's CSS size, with context scale `dpr` |
| CanvasSequence.Canvas.constructor | src/components/CanvasSequence.tsx:186-193 | a fresh canvas is 300×150, blank, with no inline size |
| CanvasSequence.DrawFrame | src/components/CanvasSequence.tsx:57-109 | with no canvas, container or 2D context nothing changes; otherwise the canvas ends in exactly the `Painted` state |
| CanvasSequence.ProgressAccepted | src/components/CanvasSequence.tsx:117 | the guard test `!(Math.abs(progress - last) < 0.001)`; its contract is stated by `FirstProgressAccepted` and `AcceptedAreSpaced` |
| CanvasSequence.Accepted | src/components/CanvasSequence.tsx:117-118 | the values that get past the guard over a run of updates; its contract is stated by `AcceptedComeFromUpdates` and `AcceptedAreSpaced` |
| CanvasSequence.AcceptedComeFromUpdates | src/components/CanvasSequence.tsx:117-118 | the guard only passes values that actually occurred |
| CanvasSequence.AcceptedAreSpaced | src/components/CanvasSequence.tsx:117-118 | every accepted value is at least 0.001 from the previously accepted one (the first from the starting value) |
| CanvasSequence.FirstProgressAccepted | src/components/CanvasSequence.tsx:117-118 | from the initial -1 (line 37), the first progress in [0, 1] always passes, and an immediate repeat is dropped |
| CanvasSequence.CanvasSequenceView.constructor | src/components/CanvasSequence.tsx:34-39 | the component starts with `lastProgress = -1` and a fresh hook on the default configuration |
| CanvasSequence.CanvasSequenceView.OnProgress | src/components/CanvasSequence.tsx:115-118 | a value within 0.001 of `lastProgress` is skipped and leaves it unchanged; any other is scheduled and recorded |
| CanvasSequence.CanvasSequenceView.DrawIfReady | src/components/CanvasSequence.tsx:127-129 | a frame is drawn only if present, complete and with `naturalWidth > 0`; otherwise the canvas is untouched |
| CanvasSequence.CanvasSequenceView.DrawAtProgress | src/components/CanvasSequence.tsx:125-130 | the animation-frame callback paints the frame for the progress when it is drawable, else changes nothing |
| CanvasSequence.CanvasSequenceView.OnResize | src/components/CanvasSequence.tsx:144-149 | a resize repaints the frame for the current progress at the new container size, under the same check |
| CanvasSequence.CanvasSequenceView.DrawFirstFrame | src/components/CanvasSequence.tsx:158-165 | once loading is over and slot 0 is drawable, slot 0 is painted; otherwise nothing changes |
| CanvasSequence.CanvasSequenceView.LoadCompleteFiresWhenDone | src/components/CanvasSequence.tsx:47-51 | `onLoadComplete` fires exactly when loading is over, i.e. when every configured frame has loaded or failed |

## Left out

- Fetching the images is left out. `new Image()`, the network and decoding
  are replaced by the caller choosing when each image's `load` or `error`
  event fires, and with what intrinsic size.
- The `Partial<FrameSequenceConfig>` merge is left out. The loader is
  modelled on the already merged configuration, and the component always
  uses the defaults.
- `console.warn` in the error handler is left out. It is only logging.
- The closure-local `loaded` counter and the React state `loadedCount` are
  kept as one field. Every handler assigns the first to the second
  immediately, so they are always equal after a handler runs.
- The React render cycle, effect dependency lists and re-runs are left out.
  Each effect or callback is a method the caller invokes.
- `requestAnimationFrame`/`cancelAnimationFrame` are left out. Coalescing of
  pending animation frames is not modelled: `OnProgress` reports that a
  redraw is scheduled, and `DrawAtProgress` is the callback.
- Registering the resize listener is left out.
- The loading overlay's `Math.round(loadProgress * 100)` text and the canvas
  opacity transition are left out. They are presentation only.
- The pixels are not modelled. `ctx.clearRect`/`drawImage` become the
  recorded `Drawing`, and `ctx.scale` becomes the `scale` field, which is
  exact because resizing the canvas resets its transform.
- Progress, aspect ratios and dimensions are exact reals. IEEE-754 rounding,
  `NaN` progress values and infinities are left out. The one place where
  `Infinity`/`NaN` arises from the code's own division (a zero-height
  container) is covered by `ContainerWiderZeroHeight`.
- ToDecimal: agrees with `toString()` only below 10^21, where JavaScript
  switches to exponent notation (and only below 2^53 are numbers exact).
  Frame numbers (at most 281) and pixel sizes stay far below that.
- NewImage / FrameLoader.Valid: `complete` is modelled as "its `load` or
  `error` event has fired". An image served from the browser's in-memory
  cache, which is complete as soon as `src` is assigned while its `load`
  event is still queued, is not modelled. For such a slot the source's
  counter can lag behind the complete slots, and the progress path can draw
  it before the model allows.
- WellFormed holds for decoded raster images such as the default jpg
  frames. An SVG without a height or `viewBox` can load with a zero
  `naturalHeight`; such images are not modelled.
- Frame numbers are naturals. Negative or fractional numbers, whose
  `toString()` contains `-` or `.`, are left out.
- Container `clientWidth`/`clientHeight` are whole CSS pixels.
- `devicePixelRatio` is assumed non-negative, which browsers guarantee.
- BufferExtent: does not model the reduction modulo 2^32, or the fallback
  to the default size, for products beyond 2^31 - 1 pixels. No container
  reaches those sizes.
- DrawFrame: requires a frame with a positive intrinsic width. Every call
  site in the component checks that first; `drawFrame` itself does not.
- The `frames[frameIndex] || null` fallback of `getFrameByProgress` is not
  modelled separately. The index is proved in bounds, so it never yields
  `undefined`.
- `src/components/ProductsDropdown.tsx`, `MultilayerIcon.tsx`,
  `TrustedBy.tsx`, `Navbar.tsx`, `ScenicSection.tsx`, `Hero.tsx` and
  `src/app/*` are not part of this model. They are markup, static tables
  and animation-library plumbing.
