/** The frame-sequence hook: frame naming, the preload bookkeeping and the
    progress-to-frame lookup of `useFrameSequence`. */
module FrameSequence {
  import opened Decimal

  datatype Option<T> = None | Some(value: T)

  /** An image element as far as the hook and the canvas look at it: the address
      it was given and the browser's `complete`, `naturalWidth` and `naturalHeight`. */
  datatype Image = Image(src: string, complete: bool, naturalWidth: real, naturalHeight: real)

  /** What a decoded raster image (the default jpg frames) satisfies: both
      dimensions are non-negative, and either both are positive or both are zero. */
  predicate WellFormed(img: Image) {
    img.naturalWidth >= 0.0 && img.naturalHeight >= 0.0 &&
    (img.naturalWidth > 0.0 <==> img.naturalHeight > 0.0)
  }

  /** `new Image()` with its `src` set: not yet complete, no intrinsic size. */
  function NewImage(src: string): (img: Image)
    ensures img.src == src && !img.complete && WellFormed(img)
  {
    Image(src, false, 0.0, 0.0)
  }

  /** The state the browser leaves an image in when its `load` event fires. */
  function Loaded(img: Image, width: real, height: real): (r: Image)
    ensures r.src == img.src && r.complete
    ensures width >= 0.0 && height >= 0.0 && (width > 0.0 <==> height > 0.0) ==> WellFormed(r)
  {
    img.(complete := true, naturalWidth := width, naturalHeight := height)
  }

  /** The state the browser leaves an image in when its `error` event fires. */
  function Broken(img: Image): (r: Image)
    ensures r.src == img.src && r.complete && WellFormed(r)
    ensures r.naturalWidth == 0.0
  {
    img.(complete := true, naturalWidth := 0.0, naturalHeight := 0.0)
  }

  datatype Config = Config(basePath: string, prefix: string, extension: string, frameNumbers: seq<nat>)

  // AVAILABLE_FRAMES, one constant per line of its array literal.
  const FramesLine1: seq<nat> := [1, 2, 3, 5, 6, 7, 8, 9, 10, 11, 12, 13, 14, 15, 16, 17, 18, 19, 20]
  const FramesLine2: seq<nat> := [22, 24, 27, 29, 31, 33, 36, 38, 40, 42, 44, 46, 48, 50, 53, 55, 57, 59]
  const FramesLine3: seq<nat> := [62, 64, 66, 68, 71, 73, 75, 77, 79, 81, 83, 85, 88, 90, 92, 94, 97, 99]
  const FramesLine4: seq<nat> := [101, 103, 106, 108, 110, 112, 114, 116, 118, 120, 123, 125, 127, 129]
  const FramesLine5: seq<nat> := [132, 134, 136, 138, 141, 143, 145, 147, 149, 151, 153, 155, 158, 160]
  const FramesLine6: seq<nat> := [162, 164, 167, 169, 171, 173, 176, 178, 180, 182, 184, 186, 188, 190]
  const FramesLine7: seq<nat> := [193, 195, 197, 199, 202, 204, 206, 211, 215, 217, 219, 221, 223, 225]
  const FramesLine8: seq<nat> := [228, 230, 232, 234, 237, 239, 241, 243, 246, 248, 250, 254, 258, 263]
  const FramesLine9: seq<nat> := [267, 272, 276, 280, 281]

  /** The frame numbers present in the image directory: a sparse subsample of the source video. */
  const AvailableFrames: seq<nat> :=
    FramesLine1 + FramesLine2 + FramesLine3 + FramesLine4 + FramesLine5
    + FramesLine6 + FramesLine7 + FramesLine8 + FramesLine9

  const DefaultConfig: Config :=
    Config("/images/standard-sequence", "graded_4K_100_gm_50_1080_3-", "jpg", AvailableFrames)

  // ---------------------------------------------------------------------------
  // Frame naming

  /** `num.toString().padStart(3, "0")`. */
  function PadFrameNumber(n: nat): string {
    PadStart(ToDecimal(n), 3, '0')
  }

  /** The padded number is at least three digits, exactly three below 1000,
      the plain numeral from 1000 on, and it still denotes `n`. */
  lemma PadFrameNumberShape(n: nat)
    ensures var r := PadFrameNumber(n);
      |r| >= 3 && AllDigits(r) && Value(r) == n &&
      (n <= 999 ==> |r| == 3) &&
      (n >= 1000 ==> r == ToDecimal(n))
  {
    var digits := ToDecimal(n);
    ToDecimalLength(n, 3);
    assert Pow10(3) == 1000;
    ValueOfToDecimal(n);
    ValueOfZeroPadded(digits, 3);
    PadStartShape(digits, 3, '0');
  }

  lemma PadFrameNumberInjective(m: nat, n: nat)
    requires PadFrameNumber(m) == PadFrameNumber(n)
    ensures m == n
  {
    PadFrameNumberShape(m);
    PadFrameNumberShape(n);
  }

  /** Where the padded frame number starts inside a frame URL. */
  function FrameFieldStart(config: Config): nat {
    |config.basePath| + 1 + |config.prefix|
  }

  /** `${basePath}/${prefix}${field}.${extension}`. */
  function Assemble(config: Config, field: string): string {
    config.basePath + "/" + config.prefix + field + "." + config.extension
  }

  lemma AssembleParts(config: Config, field: string)
    ensures var url := Assemble(config, field);
      |url| == FrameFieldStart(config) + |field| + 1 + |config.extension| &&
      url[..|config.basePath|] == config.basePath &&
      url[|config.basePath|..FrameFieldStart(config)] == "/" + config.prefix &&
      url[FrameFieldStart(config)..FrameFieldStart(config) + |field|] == field &&
      url[|url| - |config.extension| - 1..] == "." + config.extension
  {
    var head := config.basePath + "/" + config.prefix;
    var tail := "." + config.extension;
    Concat3(config.basePath, "/", config.prefix);
    Concat3(head, field, tail);
    assert Assemble(config, field) == head + field + tail;
  }

  /** `buildFrameUrl`. */
  function BuildFrameUrl(config: Config, frameNumber: nat): string {
    Assemble(config, PadFrameNumber(frameNumber))
  }

  /** A frame URL starts with the base path, ends with the extension, and holds
      the padded frame number between the prefix and the extension. */
  lemma BuildFrameUrlParts(config: Config, frameNumber: nat)
    ensures var url, field := BuildFrameUrl(config, frameNumber), PadFrameNumber(frameNumber);
      |url| == FrameFieldStart(config) + |field| + 1 + |config.extension| &&
      url[..|config.basePath|] == config.basePath &&
      url[|config.basePath|..FrameFieldStart(config)] == "/" + config.prefix &&
      url[FrameFieldStart(config)..FrameFieldStart(config) + |field|] == field &&
      url[|url| - |config.extension| - 1..] == "." + config.extension
  {
    AssembleParts(config, PadFrameNumber(frameNumber));
  }

  /** Under one configuration, distinct frame numbers get distinct URLs. */
  lemma BuildFrameUrlInjective(config: Config, m: nat, n: nat)
    requires BuildFrameUrl(config, m) == BuildFrameUrl(config, n)
    ensures m == n
  {
    var url := BuildFrameUrl(config, m);
    var start := FrameFieldStart(config);
    BuildFrameUrlParts(config, m);
    BuildFrameUrlParts(config, n);
    assert |PadFrameNumber(m)| == |PadFrameNumber(n)|;
    assert PadFrameNumber(m) == url[start..start + |PadFrameNumber(m)|] == PadFrameNumber(n);
    PadFrameNumberInjective(m, n);
  }

  lemma Concat3(a: string, b: string, c: string)
    ensures |a + b + c| == |a| + |b| + |c|
    ensures (a + b + c)[..|a|] == a
    ensures (a + b + c)[|a|..|a| + |b|] == b
    ensures (a + b + c)[|a| + |b|..] == c
  {
    var abc := a + b + c;
    assert abc[..|a|] == a;
    assert abc[|a|..|a| + |b|] == b;
    assert abc[|a| + |b|..] == c;
  }

  // ---------------------------------------------------------------------------
  // The default frame list

  /** Every entry of `s` lies in `lo..hi` and each entry is below the next. */
  predicate AscendingWithin(s: seq<nat>, lo: nat, hi: nat) {
    (forall i :: 0 <= i < |s| ==> lo <= s[i] <= hi) &&
    (forall i :: 0 <= i < |s| - 1 ==> s[i] < s[i + 1])
  }

  lemma AppendAscending(a: seq<nat>, b: seq<nat>, lo: nat, mid: nat, hi: nat)
    requires lo <= mid <= hi
    requires AscendingWithin(a, lo, mid) && AscendingWithin(b, mid + 1, hi)
    ensures AscendingWithin(a + b, lo, hi)
  {
    var ab := a + b;
    forall i | 0 <= i < |ab| ensures lo <= ab[i] <= hi {
      if i < |a| { assert ab[i] == a[i]; } else { assert ab[i] == b[i - |a|]; }
    }
    forall i | 0 <= i < |ab| - 1 ensures ab[i] < ab[i + 1] {
      if i + 1 < |a| {
        assert ab[i] == a[i] && ab[i + 1] == a[i + 1];
      } else if i + 1 == |a| {
        assert ab[i] == a[i] && ab[i + 1] == b[0];
      } else {
        assert ab[i] == b[i - |a|] && ab[i + 1] == b[i + 1 - |a|];
      }
    }
  }

  /** Neighbour-wise ascending means ascending between any two positions. */
  lemma {:induction false} AscendingPairwise(s: seq<nat>, lo: nat, hi: nat, i: nat, j: nat)
    requires AscendingWithin(s, lo, hi) && i < j < |s|
    ensures s[i] < s[j]
    decreases j - i
  {
    if i + 1 < j {
      AscendingPairwise(s, lo, hi, i + 1, j);
    }
  }

  // Each line of the literal ascends, within bounds that leave room for the next line.
  lemma FramesLine1Ascending()
    ensures AscendingWithin(FramesLine1, 1, 20)
  {
  }

  lemma FramesLine2Ascending()
    ensures AscendingWithin(FramesLine2, 21, 59)
  {
  }

  lemma FramesLine3Ascending()
    ensures AscendingWithin(FramesLine3, 60, 99)
  {
  }

  lemma FramesLine4Ascending()
    ensures AscendingWithin(FramesLine4, 100, 129)
  {
  }

  lemma FramesLine5Ascending()
    ensures AscendingWithin(FramesLine5, 130, 160)
  {
  }

  lemma FramesLine6Ascending()
    ensures AscendingWithin(FramesLine6, 161, 190)
  {
  }

  lemma FramesLine7Ascending()
    ensures AscendingWithin(FramesLine7, 191, 225)
  {
  }

  lemma FramesLine8Ascending()
    ensures AscendingWithin(FramesLine8, 226, 263)
  {
  }

  lemma FramesLine9Ascending()
    ensures AscendingWithin(FramesLine9, 264, 999)
  {
  }

  /** `AVAILABLE_FRAMES` holds 130 frame numbers, strictly ascending, each in 1..999. */
  lemma AvailableFramesAscending()
    ensures |AvailableFrames| == 130
    ensures forall i :: 0 <= i < |AvailableFrames| ==> 1 <= AvailableFrames[i] <= 999
    ensures forall i, j :: 0 <= i < j < |AvailableFrames| ==> AvailableFrames[i] < AvailableFrames[j]
  {
    FramesLine1Ascending();
    FramesLine2Ascending();
    FramesLine3Ascending();
    FramesLine4Ascending();
    FramesLine5Ascending();
    FramesLine6Ascending();
    FramesLine7Ascending();
    FramesLine8Ascending();
    FramesLine9Ascending();
    var s := FramesLine1;
    AppendAscending(s, FramesLine2, 1, 20, 59);
    s := s + FramesLine2;
    AppendAscending(s, FramesLine3, 1, 59, 99);
    s := s + FramesLine3;
    AppendAscending(s, FramesLine4, 1, 99, 129);
    s := s + FramesLine4;
    AppendAscending(s, FramesLine5, 1, 129, 160);
    s := s + FramesLine5;
    AppendAscending(s, FramesLine6, 1, 160, 190);
    s := s + FramesLine6;
    AppendAscending(s, FramesLine7, 1, 190, 225);
    s := s + FramesLine7;
    AppendAscending(s, FramesLine8, 1, 225, 263);
    s := s + FramesLine8;
    AppendAscending(s, FramesLine9, 1, 263, 999);
    s := s + FramesLine9;
    assert s == AvailableFrames;
    forall i, j | 0 <= i < j < |s| ensures s[i] < s[j] {
      AscendingPairwise(s, 1, 999, i, j);
    }
  }

  /** Every default frame URL carries a three-digit frame field, and no two
      configured frames share a URL. */
  lemma DefaultFrameUrls()
    ensures forall i :: 0 <= i < |AvailableFrames| ==>
      |PadFrameNumber(AvailableFrames[i])| == 3 &&
      |BuildFrameUrl(DefaultConfig, AvailableFrames[i])| == FrameFieldStart(DefaultConfig) + 7
    ensures forall i, j :: 0 <= i < j < |AvailableFrames| ==>
      BuildFrameUrl(DefaultConfig, AvailableFrames[i]) != BuildFrameUrl(DefaultConfig, AvailableFrames[j])
  {
    AvailableFramesAscending();
    forall i | 0 <= i < |AvailableFrames|
      ensures |PadFrameNumber(AvailableFrames[i])| == 3
      ensures |BuildFrameUrl(DefaultConfig, AvailableFrames[i])| == FrameFieldStart(DefaultConfig) + 7
    {
      PadFrameNumberShape(AvailableFrames[i]);
      BuildFrameUrlParts(DefaultConfig, AvailableFrames[i]);
    }
    forall i, j | 0 <= i < j < |AvailableFrames|
      ensures BuildFrameUrl(DefaultConfig, AvailableFrames[i]) != BuildFrameUrl(DefaultConfig, AvailableFrames[j])
    {
      if BuildFrameUrl(DefaultConfig, AvailableFrames[i]) == BuildFrameUrl(DefaultConfig, AvailableFrames[j]) {
        BuildFrameUrlInjective(DefaultConfig, AvailableFrames[i], AvailableFrames[j]);
      }
    }
  }

  // ---------------------------------------------------------------------------
  // Progress to frame

  /** `Math.max(0, Math.min(1, progress))`. */
  function Clamp01(progress: real): (c: real)
    ensures 0.0 <= c <= 1.0
    ensures 0.0 <= progress <= 1.0 ==> c == progress
    ensures progress <= 0.0 ==> c == 0.0
    ensures progress >= 1.0 ==> c == 1.0
  {
    var upper := if progress < 1.0 then progress else 1.0;
    if upper > 0.0 then upper else 0.0
  }

  /** `Math.floor(clampedProgress * (frames.length - 1))` for a non-empty frame list. */
  function FrameIndex(count: nat, progress: real): (i: nat)
    requires count > 0
    ensures i < count
    ensures i as real <= Clamp01(progress) * (count - 1) as real < i as real + 1.0
    ensures progress <= 0.0 ==> i == 0
    ensures progress >= 1.0 ==> i == count - 1
  {
    (Clamp01(progress) * (count - 1) as real).Floor
  }

  /** `getFrameByProgress`: no frame for an empty list, otherwise the slot at `FrameIndex`. */
  function FrameAt<T>(frames: seq<T>, progress: real): (r: Option<T>)
    ensures r.None? <==> |frames| == 0
    ensures r.Some? ==> r.value == frames[FrameIndex(|frames|, progress)]
    ensures r.Some? && progress <= 0.0 ==> r.value == frames[0]
    ensures r.Some? && progress >= 1.0 ==> r.value == frames[|frames| - 1]
  {
    if |frames| == 0 then None else Some(frames[FrameIndex(|frames|, progress)])
  }

  /** More progress never selects an earlier frame. */
  lemma FrameIndexMonotone(count: nat, p: real, q: real)
    requires count > 0 && p <= q
    ensures FrameIndex(count, p) <= FrameIndex(count, q)
  {
    var n := (count - 1) as real;
    var a, b := Clamp01(p), Clamp01(q);
    ScaleMonotone(a, b, n);
    FloorMonotone(a * n, b * n);
  }

  lemma ScaleMonotone(a: real, b: real, n: real)
    requires a <= b && n >= 0.0
    ensures a * n <= b * n
  {
  }

  lemma FloorMonotone(x: real, y: real)
    requires x <= y
    ensures x.Floor <= y.Floor
  {
    assert x.Floor as real <= x && y < y.Floor as real + 1.0;
  }

  /** Every slot is selected by some progress value: slot `k` by `k / (count - 1)`. */
  lemma FrameIndexReaches(count: nat, k: nat)
    requires count > 1 && k < count
    ensures FrameIndex(count, k as real / (count - 1) as real) == k
  {
    var n := (count - 1) as real;
    var p := k as real / n;
    assert 0.0 <= p <= 1.0;
    assert p * n == k as real;
  }

  /** Five frames at half progress select the third. */
  lemma FiveFramesHalfway<T>(frames: seq<T>)
    requires |frames| == 5
    ensures FrameAt(frames, 0.5) == Some(frames[2])
  {
    assert Clamp01(0.5) * 4.0 == 2.0;
  }

  // ---------------------------------------------------------------------------
  // Load accounting

  /** `frameNumbers.length > 0 ? loadedCount / frameNumbers.length : 0`. */
  function LoadFraction(loaded: nat, total: nat): (f: real)
    ensures total == 0 ==> f == 0.0
    ensures loaded <= total ==> 0.0 <= f <= 1.0
    ensures total > 0 ==> f * total as real == loaded as real
    ensures total > 0 ==> (f == 1.0 <==> loaded == total)
  {
    if total > 0 then loaded as real / total as real else 0.0
  }

  /** Load progress never goes backwards while the count grows. */
  lemma LoadFractionMonotone(a: nat, b: nat, total: nat)
    requires a <= b
    ensures LoadFraction(a, total) <= LoadFraction(b, total)
  {
    if total > 0 {
      var t := total as real;
      var fa, fb := LoadFraction(a, total), LoadFraction(b, total);
      assert fa * t == a as real && fb * t == b as real;
      if fb < fa {
        ScaleStrict(fb, fa, t);
      }
    }
  }

  lemma ScaleStrict(a: real, b: real, n: real)
    requires a < b && n > 0.0
    ensures a * n < b * n
  {
  }

  /** How many slots have settled (fired `load` or `error`). */
  function CountComplete(frames: seq<Image>): (k: nat)
    ensures k <= |frames|
  {
    if frames == [] then 0
    else CountComplete(frames[..|frames| - 1]) + (if frames[|frames| - 1].complete then 1 else 0)
  }

  /** Every slot has settled exactly when the count reaches the number of slots;
      with none settled the count is zero. */
  lemma {:induction false} CountCompleteAll(frames: seq<Image>)
    ensures CountComplete(frames) == |frames| <==> forall i :: 0 <= i < |frames| ==> frames[i].complete
    ensures (forall i :: 0 <= i < |frames| ==> !frames[i].complete) ==> CountComplete(frames) == 0
    decreases |frames|
  {
    if frames != [] {
      var init := frames[..|frames| - 1];
      CountCompleteAll(init);
      assert forall i :: 0 <= i < |init| ==> init[i] == frames[i];
    }
  }

  /** Settling one pending slot adds exactly one to the count. */
  lemma {:induction false} CountCompleteSettle(frames: seq<Image>, index: nat, img: Image)
    requires index < |frames| && !frames[index].complete && img.complete
    ensures CountComplete(frames[index := img]) == CountComplete(frames) + 1
    decreases |frames|
  {
    var after := frames[index := img];
    var n := |frames|;
    if index < n - 1 {
      assert after[..n - 1] == frames[..n - 1][index := img];
      CountCompleteSettle(frames[..n - 1], index, img);
    } else {
      assert after[..n - 1] == frames[..n - 1];
    }
  }

  /** The `forEach` of the preload effect: one fresh image per configured frame, in order. */
  method CreateImages(config: Config) returns (images: seq<Image>)
    ensures |images| == |config.frameNumbers|
    ensures forall i :: 0 <= i < |images| ==>
      images[i] == NewImage(BuildFrameUrl(config, config.frameNumbers[i]))
  {
    images := [];
    var index := 0;
    while index < |config.frameNumbers|
      invariant index <= |config.frameNumbers| && |images| == index
      invariant forall i :: 0 <= i < index ==>
        images[i] == NewImage(BuildFrameUrl(config, config.frameNumbers[i]))
    {
      var frameNum := config.frameNumbers[index];
      var img := NewImage(BuildFrameUrl(config, frameNum));
      images := images + [img];
      index := index + 1;
    }
  }

  /** The state of one `useFrameSequence` hook instance. */
  class FrameLoader {
    const config: Config
    var frames: seq<Image>
    var loadedCount: nat
    var isLoading: bool
    var hasStartedLoading: bool

    ghost predicate Valid()
      reads this
    {
      (hasStartedLoading ==> |frames| == |config.frameNumbers|) &&
      (!hasStartedLoading ==> frames == []) &&
      (forall i :: 0 <= i < |frames| ==>
        frames[i].src == BuildFrameUrl(config, config.frameNumbers[i]) && WellFormed(frames[i])) &&
      loadedCount == CountComplete(frames) &&
      isLoading == !(|config.frameNumbers| > 0 && loadedCount == |config.frameNumbers|)
    }

    constructor(config: Config)
      ensures Valid() && this.config == config
      ensures frames == [] && loadedCount == 0 && isLoading && !hasStartedLoading
    {
      this.config := config;
      frames := [];
      loadedCount := 0;
      isLoading := true;
      hasStartedLoading := false;
    }

    /** The mount effect: creates the images once; a second run does nothing. */
    method StartLoading()
      requires Valid()
      modifies this
      ensures Valid() && hasStartedLoading
      ensures old(hasStartedLoading) ==>
        frames == old(frames) && loadedCount == old(loadedCount) && isLoading == old(isLoading)
      ensures !old(hasStartedLoading) ==>
        |frames| == |config.frameNumbers| &&
        (forall i :: 0 <= i < |frames| ==> frames[i] == NewImage(BuildFrameUrl(config, config.frameNumbers[i]))) &&
        loadedCount == 0 && isLoading
    {
      if hasStartedLoading {
        return;
      }
      hasStartedLoading := true;
      var imageElements := CreateImages(config);
      CountCompleteAll(imageElements);
      frames := imageElements;
    }

    /** The shared body of the `onload` and `onerror` handlers, run after the
        browser has settled slot `index` as `outcome`. */
    method Settle(index: nat, outcome: Image)
      requires Valid() && hasStartedLoading
      requires index < |frames| && !frames[index].complete
      requires outcome.complete && outcome.src == frames[index].src && WellFormed(outcome)
      modifies this
      ensures Valid() && hasStartedLoading
      ensures frames == old(frames)[index := outcome]
      ensures loadedCount == old(loadedCount) + 1
      ensures !isLoading <==> loadedCount == |config.frameNumbers|
    {
      CountCompleteSettle(frames, index, outcome);
      frames := frames[index := outcome];
      loadedCount := loadedCount + 1;
      if loadedCount == |config.frameNumbers| {
        isLoading := false;
      }
    }

    /** Slot `index` finished loading with the given intrinsic size. */
    method OnLoad(index: nat, width: real, height: real)
      requires Valid() && hasStartedLoading
      requires index < |frames| && !frames[index].complete
      requires width >= 0.0 && height >= 0.0 && (width > 0.0 <==> height > 0.0)
      modifies this
      ensures Valid() && hasStartedLoading
      ensures frames == old(frames)[index := Loaded(old(frames)[index], width, height)]
      ensures loadedCount == old(loadedCount) + 1
      ensures !isLoading <==> loadedCount == |config.frameNumbers|
    {
      Settle(index, Loaded(frames[index], width, height));
    }

    /** Slot `index` failed to load; it counts toward completion all the same. */
    method OnError(index: nat)
      requires Valid() && hasStartedLoading
      requires index < |frames| && !frames[index].complete
      modifies this
      ensures Valid() && hasStartedLoading
      ensures frames == old(frames)[index := Broken(old(frames)[index])]
      ensures loadedCount == old(loadedCount) + 1
      ensures !isLoading <==> loadedCount == |config.frameNumbers|
    {
      Settle(index, Broken(frames[index]));
    }

    /** The hook's `loadProgress`. */
    function LoadProgress(): (f: real)
      requires Valid()
      reads this
      ensures 0.0 <= f <= 1.0
      ensures !isLoading ==> f == 1.0
    {
      LoadFraction(loadedCount, |config.frameNumbers|)
    }

    /** The hook's `getFrameByProgress`. */
    function GetFrameByProgress(progress: real): (r: Option<Image>)
      requires Valid()
      reads this
      ensures r.None? <==> frames == []
      ensures r.Some? ==> r.value in frames && WellFormed(r.value)
    {
      FrameAt(frames, progress)
    }

    /** Loading is over exactly when every configured frame has settled, loaded
        or failed; with no frames configured it never ends. */
    lemma DoneIffAllSettled()
      requires Valid()
      ensures !isLoading <==>
        hasStartedLoading && |config.frameNumbers| > 0 &&
        forall i :: 0 <= i < |frames| ==> frames[i].complete
      ensures config.frameNumbers == [] ==> isLoading
    {
      CountCompleteAll(frames);
    }
  }

  /** Five frames that all fail still finish loading, and lookup still yields a slot. */
  method AllFramesFailScenario()
  {
    var loader := new FrameLoader(Config("/f", "p-", "jpg", [1, 2, 3, 4, 5]));
    loader.StartLoading();
    loader.OnError(0);
    loader.OnError(1);
    loader.OnError(2);
    loader.OnError(3);
    assert loader.isLoading;
    loader.OnError(4);
    assert !loader.isLoading && loader.LoadProgress() == 1.0;
    var frame := loader.GetFrameByProgress(0.5);
    FiveFramesHalfway(loader.frames);
    assert frame == Some(loader.frames[2]);
    assert frame.value.naturalWidth == 0.0;
  }
}
