// `Renderer.updateImages` and `Renderer.render` (src/render.ts).
//
// The renderer keeps, per image index, a cache fingerprint (`cacheSrcs`),
// a feature slot (`keypoints`, `descriptors`) and an image texture. The
// JavaScript arrays are written only at an index no larger than their
// length, so they stay dense and are modelled as sequences.
//
// `updateImages` is specified by the pure functions `Extracted` (pass 1),
// `Aligned` (pass 2) and their composition `Updated`, and by the log of
// library calls `UpdateLog`; the lemmas in render_props.dfy state what the
// source promises about them.
module Render {
  import opened Dom
  import opened Vision
  import opened Matching

  /** What an image texture holds: nothing yet, an image as loaded, or an
      image warped by a homography. */
  datatype Texture = Blank | Unwarped(src: string) | Warped(src: string, h: Homography)

  /** The observable native work of one `updateImages` call, in order. */
  datatype Effect =
    | Decode(i: nat)             // cv.imread + cvtColor of the detection frame (render.ts:155-163)
    | Detect(i: nat)             // detector.detectAndCompute (render.ts:175)
    | ReleaseKeypoints(i: nat)   // this.keypoints[i].delete() (render.ts:183-185)
    | ReleaseDescriptors(i: nat) // this.descriptors[i].delete() (render.ts:186-188)
    | Match(i: nat)              // bf.knnMatch against the baseline (render.ts:228)
    | AlignFailed(i: nat)        // the "could not align" alert (render.ts:260)
    | Warp(i: nat)               // warpPerspective + texture upload (render.ts:263-274)

  /** The renderer fields `updateImages` reads as configuration. */
  datatype Config = Config(detector: DetectorType, widthLimit: int, ratio: real, debug: bool)

  /** The per-index state `updateImages` updates. */
  datatype Slots = Slots(cacheSrcs: seq<string>, keypoints: seq<seq<KeyPoint>>,
                         descriptors: seq<DescriptorMat>, textures: seq<Texture>)
  {
    /** Feature slots and textures are created together; a fingerprint is
        written only for an index whose slots exist; each descriptor matrix
        has one row per keypoint. */
    predicate Valid()
    {
      && |keypoints| == |descriptors| == |textures|
      && |cacheSrcs| <= |keypoints|
      && forall j :: 0 <= j < |keypoints| ==> |keypoints[j]| == |descriptors[j].rows|
    }
  }

  /** JavaScript `a[i] = v` for `i <= a.length`. */
  function WriteAt<T>(s: seq<T>, i: nat, v: T): (r: seq<T>)
    requires i <= |s|
    ensures |r| == Max(|s|, i + 1) && r[i] == v
    ensures forall j :: 0 <= j < |s| && j != i ==> r[j] == s[j]
  {
    if i < |s| then s[i := v] else s + [v]
  }

  /** The cache-hit test of both passes (render.ts:151, :218): index `i` is
      cached exactly when its stored fingerprint equals the first 100
      characters of the image's `src` (a missing entry is `undefined`, which
      equals no string). */
  predicate Cached(cacheSrcs: seq<string>, images: seq<Image>, i: nat)
    requires i < |images|
  {
    i < |cacheSrcs| && cacheSrcs[i] == Fingerprint(images[i].src)
  }

  /** The keypoints and descriptors the configured detector finds on the
      image's detection frame. */
  function Features(lib: Library, cfg: Config, img: Image): (seq<KeyPoint>, DescriptorMat)
  {
    lib.detect(cfg.detector, DetectionFrame(img, cfg.widthLimit))
  }

  /** Pass 2's precondition: every image has its feature slots, and the
      baseline's fingerprint is current. */
  predicate Ready(m: Slots, images: seq<Image>)
  {
    && m.Valid()
    && |m.keypoints| >= |images|
    && (|images| > 0 ==> Cached(m.cacheSrcs, images, 0))
  }

  // ---------------------------------------------------------------------
  // Pass 1 (render.ts:150-214)

  /** The baseline upload with texture 0 bound first (see `Findings` in
      README.md for the upload as written). */
  function BaselineUpload(textures: seq<Texture>, src: string): (r: seq<Texture>)
    requires |textures| > 0
    ensures |r| == |textures| && r[0] == Unwarped(src)
    ensures forall j :: 0 < j < |textures| ==> r[j] == textures[j]
  {
    textures[0 := Unwarped(src)]
  }

  /** The baseline upload as written (render.ts:204-206): `texImage2D`
      writes into whichever texture is bound to TEXTURE_2D. `bound` is that
      texture's index, or -1 when none of the image textures is bound. The
      upload binds nothing itself, so when texture 0 already existed it lands
      in the texture bound by an earlier call. */
  function BaselineUploadAsWritten(textures: seq<Texture>, bound: int, src: string): (r: seq<Texture>)
    requires |textures| > 0 && -1 <= bound < |textures|
    ensures |r| == |textures|
    ensures bound == -1 ==> r == textures
    ensures bound >= 0 ==> r[bound] == Unwarped(src)
    ensures forall j :: 0 <= j < |textures| && j != bound ==> r[j] == textures[j]
  {
    if bound == -1 then textures else textures[bound := Unwarped(src)]
  }

  /** Pass 1 at index `i` of the current state `cur`: a stale index gets
      fresh features (the old ones are released) and a texture, created
      blank if missing; a stale baseline is uploaded unwarped and
      fingerprinted. A cached index is left alone. */
  function ExtractAt(cur: Slots, images: seq<Image>, lib: Library, cfg: Config, i: nat): (r: Slots)
    requires cur.Valid() && lib.Sound() && i < |images| && i <= |cur.keypoints|
    ensures r.Valid()
    ensures |r.keypoints| == Max(|cur.keypoints|, i + 1)
  {
    if Cached(cur.cacheSrcs, images, i) then cur
    else
      var f := Features(lib, cfg, images[i]);
      var t := if |cur.textures| <= i then WriteAt(cur.textures, i, Blank) else cur.textures;
      Slots(if i == 0 then WriteAt(cur.cacheSrcs, 0, Fingerprint(images[0].src)) else cur.cacheSrcs,
            WriteAt(cur.keypoints, i, f.0),
            WriteAt(cur.descriptors, i, f.1),
            if i == 0 then BaselineUpload(t, images[0].src) else t)
  }

  /** The state after pass 1 has handled the indices below `k`. */
  function Extracted(s: Slots, images: seq<Image>, lib: Library, cfg: Config, k: nat): (r: Slots)
    requires s.Valid() && lib.Sound() && k <= |images|
    ensures r.Valid()
    ensures |r.keypoints| == Max(|s.keypoints|, k)
    ensures 0 < k ==> Cached(r.cacheSrcs, images, 0)
  {
    if k == 0 then s else ExtractAt(Extracted(s, images, lib, cfg, k - 1), images, lib, cfg, k - 1)
  }

  /** The effects of pass 1 at index `i` of the current state `cur`. */
  function ExtractEffects(cur: Slots, images: seq<Image>, cfg: Config, i: nat): seq<Effect>
    requires i < |images|
  {
    var stale := !Cached(cur.cacheSrcs, images, i);
    if stale || cfg.debug then
      [Decode(i)] +
      if stale then
        [Detect(i)]
        + (if i < |cur.keypoints| then [ReleaseKeypoints(i)] else [])
        + (if i < |cur.descriptors| then [ReleaseDescriptors(i)] else [])
      else []
    else []
  }

  /** The effects of pass 1 over the indices below `k`. */
  function ExtractLog(s: Slots, images: seq<Image>, lib: Library, cfg: Config, k: nat): seq<Effect>
    requires s.Valid() && lib.Sound() && k <= |images|
  {
    if k == 0 then []
    else ExtractLog(s, images, lib, cfg, k - 1) + ExtractEffects(Extracted(s, images, lib, cfg, k - 1), images, cfg, k - 1)
  }

  // ---------------------------------------------------------------------
  // Pass 2 (render.ts:216-293)

  /** The homography pass 2 estimates for image `j` from the current
      features. */
  function AlignmentAt(m: Slots, lib: Library, cfg: Config, j: nat): Homography
    requires m.Valid() && lib.Sound() && 0 < j < |m.keypoints|
  {
    Alignment(lib, cfg.ratio, m.keypoints[0], m.descriptors[0], m.keypoints[j], m.descriptors[j])
  }

  /** Pass 2 at index `i` of the current state `cur`: a stale index is
      fingerprinted, and gets its warped texture when the estimate passes
      the validity gate. A cached index is left alone. */
  function AlignAt(cur: Slots, images: seq<Image>, lib: Library, cfg: Config, i: nat): (r: Slots)
    requires Ready(cur, images) && lib.Sound() && 1 <= i < |images| && i <= |cur.cacheSrcs|
    ensures Ready(r, images)
    ensures r.keypoints == cur.keypoints && r.descriptors == cur.descriptors
    ensures |r.textures| == |cur.textures| && |r.cacheSrcs| == Max(|cur.cacheSrcs|, i + 1)
  {
    if Cached(cur.cacheSrcs, images, i) then cur
    else
      var h := AlignmentAt(cur, lib, cfg, i);
      cur.(cacheSrcs := WriteAt(cur.cacheSrcs, i, Fingerprint(images[i].src)),
           textures := if Rejected(h) then cur.textures else cur.textures[i := Warped(images[i].src, h)])
  }

  /** The state after pass 2 has handled the indices in [1, k). */
  function Aligned(m: Slots, images: seq<Image>, lib: Library, cfg: Config, k: nat): (r: Slots)
    requires Ready(m, images) && lib.Sound() && 1 <= k <= Max(1, |images|)
    ensures Ready(r, images)
    ensures r.keypoints == m.keypoints && r.descriptors == m.descriptors && |r.textures| == |m.textures|
    ensures |images| > 0 ==> |r.cacheSrcs| == Max(|m.cacheSrcs|, k)
    ensures |images| == 0 ==> r == m
  {
    if k == 1 then m else AlignAt(Aligned(m, images, lib, cfg, k - 1), images, lib, cfg, k - 1)
  }

  /** The effects of pass 2 at index `i` of the current state `cur`. */
  function AlignEffects(cur: Slots, images: seq<Image>, lib: Library, cfg: Config, i: nat): seq<Effect>
    requires Ready(cur, images) && lib.Sound() && 1 <= i < |images|
  {
    if Cached(cur.cacheSrcs, images, i) then []
    else if Rejected(AlignmentAt(cur, lib, cfg, i)) then [Match(i), AlignFailed(i)] else [Match(i), Warp(i)]
  }

  /** The effects of pass 2 over the indices in [1, k). */
  function AlignLog(m: Slots, images: seq<Image>, lib: Library, cfg: Config, k: nat): seq<Effect>
    requires Ready(m, images) && lib.Sound() && 1 <= k <= Max(1, |images|)
  {
    if k == 1 then []
    else AlignLog(m, images, lib, cfg, k - 1) + AlignEffects(Aligned(m, images, lib, cfg, k - 1), images, lib, cfg, k - 1)
  }

  /** Pass 2 moves from index `i` to `i + 1` by one `AlignAt`. */
  lemma AlignedNext(m: Slots, images: seq<Image>, lib: Library, cfg: Config, i: nat)
    requires Ready(m, images) && lib.Sound() && 1 <= i < |images|
    ensures var cur := Aligned(m, images, lib, cfg, i);
      && Ready(cur, images) && i <= |cur.cacheSrcs|
      && Aligned(m, images, lib, cfg, i + 1) == AlignAt(cur, images, lib, cfg, i)
      && AlignLog(m, images, lib, cfg, i + 1) == AlignLog(m, images, lib, cfg, i) + AlignEffects(cur, images, lib, cfg, i)
  {
  }

  // ---------------------------------------------------------------------
  // The whole call

  /** The state after `updateImages`. */
  function Updated(s: Slots, images: seq<Image>, lib: Library, cfg: Config): (r: Slots)
    requires s.Valid() && lib.Sound()
    ensures r.Valid()
    ensures |r.keypoints| == Max(|s.keypoints|, |images|)
  {
    Aligned(Extracted(s, images, lib, cfg, |images|), images, lib, cfg, Max(1, |images|))
  }

  /** The effects of `updateImages`, in order. */
  function UpdateLog(s: Slots, images: seq<Image>, lib: Library, cfg: Config): seq<Effect>
    requires s.Valid() && lib.Sound()
  {
    ExtractLog(s, images, lib, cfg, |images|)
    + AlignLog(Extracted(s, images, lib, cfg, |images|), images, lib, cfg, Max(1, |images|))
  }

  // ---------------------------------------------------------------------
  // The renderer object

  class Renderer {
    var brushSize: int
    var detectorType: DetectorType
    var detectorWidthLimit: int
    var images: seq<Image>
    var imageTextures: seq<Texture>
    /** -1 draws every image; otherwise only the selected one. */
    var selected: int
    var keypoints: seq<seq<KeyPoint>>
    var descriptors: seq<DescriptorMat>
    /** The fingerprint each index's features and texture were made from. */
    var cacheSrcs: seq<string>
    var knnDistanceOption: real
    /** Whether a debug canvas is attached. */
    var debugCanvas: bool

    function State(): Slots
      reads this`cacheSrcs, this`keypoints, this`descriptors, this`imageTextures
    {
      Slots(cacheSrcs, keypoints, descriptors, imageTextures)
    }

    function Options(): Config
      reads this`detectorType, this`detectorWidthLimit, this`knnDistanceOption, this`debugCanvas
    {
      Config(detectorType, detectorWidthLimit, knnDistanceOption, debugCanvas)
    }

    ghost predicate Valid()
      reads this`cacheSrcs, this`keypoints, this`descriptors, this`imageTextures
    {
      State().Valid()
    }

    /** The field initialisers of `Renderer` (the WebGL set-up of the
        constructor is not modelled). */
    constructor ()
      ensures Valid()
      ensures brushSize == 2 && detectorType == AKAZE && detectorWidthLimit == 800
      ensures selected == -1 && knnDistanceOption == 0.7 && !debugCanvas
      ensures images == [] && imageTextures == [] && keypoints == [] && descriptors == [] && cacheSrcs == []
    {
      brushSize := 2;
      detectorType := AKAZE;
      detectorWidthLimit := 800;
      images := [];
      imageTextures := [];
      selected := -1;
      keypoints := [];
      descriptors := [];
      cacheSrcs := [];
      knnDistanceOption := 0.7;
      debugCanvas := false;
    }

    /** render.ts:148-298. */
    method UpdateImages(lib: Library) returns (effects: seq<Effect>)
      requires Valid() && lib.Sound()
      modifies this`cacheSrcs, this`keypoints, this`descriptors, this`imageTextures
      ensures Valid()
      ensures State() == Updated(old(State()), images, lib, Options())
      ensures effects == UpdateLog(old(State()), images, lib, Options())
    {
      var extracted := ExtractFeatures(lib);
      var aligned := AlignImages(lib);
      effects := extracted + aligned;
    }

    /** Pass 1 (render.ts:150-214): re-extract the features of every index
        whose fingerprint is stale. */
    method ExtractFeatures(lib: Library) returns (effects: seq<Effect>)
      requires Valid() && lib.Sound()
      modifies this`cacheSrcs, this`keypoints, this`descriptors, this`imageTextures
      ensures State() == Extracted(old(State()), images, lib, Options(), |images|)
      ensures effects == ExtractLog(old(State()), images, lib, Options(), |images|)
    {
      ghost var s := State();
      effects := [];
      var i := 0;
      while i < |images|
        invariant 0 <= i <= |images|
        invariant State() == Extracted(s, images, lib, Options(), i)
        invariant effects == ExtractLog(s, images, lib, Options(), i)
      {
        var e := RefreshFeatures(lib, i);
        effects := effects + e;
        i := i + 1;
      }
    }

    /** One iteration of pass 1 (render.ts:151-213). */
    method RefreshFeatures(lib: Library, i: nat) returns (effects: seq<Effect>)
      requires Valid() && lib.Sound() && i < |images| && i <= |keypoints|
      modifies this`cacheSrcs, this`keypoints, this`descriptors, this`imageTextures
      ensures State() == ExtractAt(old(State()), images, lib, Options(), i)
      ensures effects == ExtractEffects(old(State()), images, Options(), i)
    {
      effects := [];
      var cached := i < |cacheSrcs| && cacheSrcs[i] == Fingerprint(images[i].src);
      if !cached || debugCanvas {
        effects := effects + [Decode(i)];
        if !cached {
          var (kps, desc) := lib.detect(detectorType, DetectionFrame(images[i], detectorWidthLimit));
          effects := effects + [Detect(i)];
          if i < |keypoints| {
            effects := effects + [ReleaseKeypoints(i)];
          }
          if i < |descriptors| {
            effects := effects + [ReleaseDescriptors(i)];
          }
          keypoints := WriteAt(keypoints, i, kps);
          descriptors := WriteAt(descriptors, i, desc);
          if |imageTextures| <= i {
            imageTextures := WriteAt(imageTextures, i, Blank);
          }
          if i == 0 {
            imageTextures := BaselineUpload(imageTextures, images[0].src);
            cacheSrcs := WriteAt(cacheSrcs, 0, Fingerprint(images[0].src));
          }
        }
      }
    }

    /** Pass 2 (render.ts:216-293): align every non-baseline index whose
        fingerprint is stale onto the baseline. */
    method AlignImages(lib: Library) returns (effects: seq<Effect>)
      requires Ready(State(), images) && lib.Sound()
      modifies this`cacheSrcs, this`imageTextures
      ensures State() == Aligned(old(State()), images, lib, Options(), Max(1, |images|))
      ensures effects == AlignLog(old(State()), images, lib, Options(), Max(1, |images|))
    {
      ghost var m := State();
      effects := [];
      var i := 1;
      while i < |images|
        invariant 1 <= i <= Max(1, |images|)
        invariant State() == Aligned(m, images, lib, Options(), i)
        invariant effects == AlignLog(m, images, lib, Options(), i)
      {
        var e := AlignImage(lib, i, m);
        effects := effects + e;
        i := i + 1;
      }
      assert i == Max(1, |images|);
    }

    /** One iteration of pass 2 (render.ts:217-292). */
    method AlignImage(lib: Library, i: nat, ghost m: Slots) returns (effects: seq<Effect>)
      requires Ready(m, images) && lib.Sound() && 1 <= i < |images|
      requires State() == Aligned(m, images, lib, Options(), i)
      modifies this`cacheSrcs, this`imageTextures
      ensures State() == Aligned(m, images, lib, Options(), i + 1)
      ensures effects == AlignEffects(old(State()), images, lib, Options(), i)
      ensures AlignLog(m, images, lib, Options(), i + 1) == AlignLog(m, images, lib, Options(), i) + effects
    {
      AlignedNext(m, images, lib, Options(), i);
      if i < |cacheSrcs| && cacheSrcs[i] == Fingerprint(images[i].src) {
        effects := [];
      } else {
        cacheSrcs := WriteAt(cacheSrcs, i, Fingerprint(images[i].src));
        var h := EstimateHomography(lib, knnDistanceOption, keypoints[0], descriptors[0], keypoints[i], descriptors[i]);
        if Rejected(h) {
          effects := [Match(i), AlignFailed(i)];
        } else {
          imageTextures := imageTextures[i := Warped(images[i].src, h)];
          effects := [Match(i), Warp(i)];
        }
      }
    }

    /** render.ts:309-335, as the sequence of texture indices drawn: every
        texture in ascending order when `selected` is -1, otherwise the
        selected index alone. */
    method Render() returns (drawn: seq<int>)
      ensures selected == -1 ==> |drawn| == |imageTextures| && forall k :: 0 <= k < |drawn| ==> drawn[k] == k
      ensures selected != -1 ==> drawn == [selected]
    {
      if selected == -1 {
        drawn := [];
        var i := 0;
        while i < |imageTextures|
          invariant 0 <= i <= |imageTextures|
          invariant |drawn| == i
          invariant forall k :: 0 <= k < i ==> drawn[k] == k
        {
          drawn := drawn + [i];
          i := i + 1;
        }
      } else {
        drawn := [selected];
      }
    }
  }
}
