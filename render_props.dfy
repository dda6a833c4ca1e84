// What `updateImages` promises, stated about its specification `Updated`
// and its effect log `UpdateLog` (render.dfy): which fingerprints, feature
// slots and textures change, which library calls are made, that a second
// call changes nothing, and that a new baseline does not re-align the
// other images. Most facts are proved for one index at a time and then
// collected.
module RenderProps {
  import opened Dom
  import opened Vision
  import opened Matching
  import opened Render

  /** Every image index carries its current fingerprint. */
  predicate Settled(s: Slots, images: seq<Image>)
  {
    && |images| <= |s.cacheSrcs|
    && forall j :: 0 <= j < |images| ==> Cached(s.cacheSrcs, images, j)
  }

  /** The effects of the alignment pass. */
  predicate IsAlignEffect(e: Effect)
  {
    e.Match? || e.AlignFailed? || e.Warp?
  }

  // ---------------------------------------------------------------------
  // Pass 1

  /** Pass 1 writes only the baseline's fingerprint, and only when it is
      stale. */
  lemma {:induction false} ExtractedCacheSrcs(s: Slots, images: seq<Image>, lib: Library, cfg: Config, k: nat)
    requires s.Valid() && lib.Sound() && k <= |images|
    ensures Extracted(s, images, lib, cfg, k).cacheSrcs ==
              if 0 < k && !Cached(s.cacheSrcs, images, 0)
              then WriteAt(s.cacheSrcs, 0, Fingerprint(images[0].src))
              else s.cacheSrcs
  {
    if k > 0 {
      ExtractedCacheSrcs(s, images, lib, cfg, k - 1);
    }
  }

  /** During pass 1 every non-baseline index keeps its cache-hit status. */
  lemma ExtractKeepsOtherKeys(s: Slots, images: seq<Image>, lib: Library, cfg: Config, k: nat, j: nat)
    requires s.Valid() && lib.Sound() && k <= |images| && 0 < j < |images|
    ensures Cached(Extracted(s, images, lib, cfg, k).cacheSrcs, images, j) == Cached(s.cacheSrcs, images, j)
  {
    ExtractedCacheSrcs(s, images, lib, cfg, k);
  }

  /** When pass 1 reaches index `i`, that index is cached exactly when it was
      cached before the call, and its slots exist exactly when they existed
      before the call. */
  lemma ExtractSeesOriginalKey(s: Slots, images: seq<Image>, lib: Library, cfg: Config, i: nat)
    requires s.Valid() && lib.Sound() && i < |images|
    ensures Cached(Extracted(s, images, lib, cfg, i).cacheSrcs, images, i) == Cached(s.cacheSrcs, images, i)
    ensures i < |Extracted(s, images, lib, cfg, i).keypoints| <==> i < |s.keypoints|
  {
    if i > 0 {
      ExtractKeepsOtherKeys(s, images, lib, cfg, i, i);
    }
  }

  /** After pass 1 has handled the indices below `k`, slot `j` holds fresh
      features exactly when `j` is below `k` and was stale; its texture is
      the unwarped baseline when `j` is a stale baseline, is otherwise the
      old texture, and is blank when it was created for a new index. */
  lemma {:induction false} ExtractedSlot(s: Slots, images: seq<Image>, lib: Library, cfg: Config, k: nat, j: nat)
    requires s.Valid() && lib.Sound() && k <= |images| && j < Max(|s.keypoints|, k)
    ensures var r := Extracted(s, images, lib, cfg, k);
      && r.keypoints[j] == (if j < k && !Cached(s.cacheSrcs, images, j) then Features(lib, cfg, images[j]).0 else s.keypoints[j])
      && r.descriptors[j] == (if j < k && !Cached(s.cacheSrcs, images, j) then Features(lib, cfg, images[j]).1 else s.descriptors[j])
      && r.textures[j] == (if j == 0 && 0 < k && !Cached(s.cacheSrcs, images, 0) then Unwarped(images[0].src)
                           else if j < |s.textures| then s.textures[j] else Blank)
  {
    if k > 0 {
      var i := k - 1;
      ExtractSeesOriginalKey(s, images, lib, cfg, i);
      if j < Max(|s.keypoints|, i) {
        ExtractedSlot(s, images, lib, cfg, i, j);
      }
    }
  }

  /** The effects of pass 1 at one index name that index and no other. */
  lemma ExtractEffectsAt(cur: Slots, images: seq<Image>, cfg: Config, i: nat)
    requires i < |images|
    ensures var step := ExtractEffects(cur, images, cfg, i);
      && (forall e :: e in step ==> e.i == i && !IsAlignEffect(e))
      && (Decode(i) in step <==> !Cached(cur.cacheSrcs, images, i) || cfg.debug)
      && (Detect(i) in step <==> !Cached(cur.cacheSrcs, images, i))
      && (ReleaseKeypoints(i) in step <==> !Cached(cur.cacheSrcs, images, i) && i < |cur.keypoints|)
      && (ReleaseDescriptors(i) in step <==> !Cached(cur.cacheSrcs, images, i) && i < |cur.descriptors|)
  {
  }

  /** Every effect of pass 1 over the indices below `k` is a pass-1 effect
      naming an index below `k`. */
  lemma {:induction false} ExtractLogKind(s: Slots, images: seq<Image>, lib: Library, cfg: Config, k: nat, e: Effect)
    requires s.Valid() && lib.Sound() && k <= |images| && e in ExtractLog(s, images, lib, cfg, k)
    ensures e.i < k && !IsAlignEffect(e)
  {
    var i := k - 1;
    var prev := ExtractLog(s, images, lib, cfg, i);
    if e in prev {
      ExtractLogKind(s, images, lib, cfg, i, e);
    } else {
      ExtractEffectsAt(Extracted(s, images, lib, cfg, i), images, cfg, i);
    }
  }

  /** An effect sequence that names only index `i` names no other index. */
  lemma OtherIndexAbsent(step: seq<Effect>, i: nat, j: nat)
    requires i != j && forall e :: e in step ==> e.i == i
    ensures Decode(j) !in step && Detect(j) !in step
    ensures ReleaseKeypoints(j) !in step && ReleaseDescriptors(j) !in step
    ensures Match(j) !in step && AlignFailed(j) !in step && Warp(j) !in step
  {
  }

  /** Pass 1 over the indices below `k` makes no pass-1 call for an index at
      or above `k`. */
  lemma ExtractLogMissing(s: Slots, images: seq<Image>, lib: Library, cfg: Config, k: nat, j: nat)
    requires s.Valid() && lib.Sound() && k <= |images| && k <= j
    ensures var log := ExtractLog(s, images, lib, cfg, k);
      Decode(j) !in log && Detect(j) !in log && ReleaseKeypoints(j) !in log && ReleaseDescriptors(j) !in log
  {
    var log := ExtractLog(s, images, lib, cfg, k);
    forall e | e in log
      ensures e.i != j
    {
      ExtractLogKind(s, images, lib, cfg, k, e);
    }
  }

  /** The effects of pass 1 over the indices below `k`, for image `j`:
      detection, and the release of the replaced slots, happen exactly when
      `j` is below `k` and stale; decoding also when it is cached and a debug
      canvas is attached. */
  lemma {:induction false} ExtractLogAt(s: Slots, images: seq<Image>, lib: Library, cfg: Config, k: nat, j: nat)
    requires s.Valid() && lib.Sound() && k <= |images| && j < |images|
    ensures var log := ExtractLog(s, images, lib, cfg, k);
      && (Decode(j) in log <==> j < k && (!Cached(s.cacheSrcs, images, j) || cfg.debug))
      && (Detect(j) in log <==> j < k && !Cached(s.cacheSrcs, images, j))
      && (ReleaseKeypoints(j) in log <==> j < k && !Cached(s.cacheSrcs, images, j) && j < |s.keypoints|)
      && (ReleaseDescriptors(j) in log <==> j < k && !Cached(s.cacheSrcs, images, j) && j < |s.descriptors|)
  {
    if k > 0 {
      var i := k - 1;
      var cur := Extracted(s, images, lib, cfg, i);
      var prev := ExtractLog(s, images, lib, cfg, i);
      var step := ExtractEffects(cur, images, cfg, i);
      assert ExtractLog(s, images, lib, cfg, k) == prev + step;
      ExtractEffectsAt(cur, images, cfg, i);
      if j < i {
        ExtractLogAt(s, images, lib, cfg, i, j);
        OtherIndexAbsent(step, i, j);
      } else if j == i {
        ExtractSeesOriginalKey(s, images, lib, cfg, i);
        ExtractLogMissing(s, images, lib, cfg, i, j);
      } else {
        ExtractLogMissing(s, images, lib, cfg, i, j);
        OtherIndexAbsent(step, i, j);
      }
    }
  }

  // ---------------------------------------------------------------------
  // Pass 2

  /** After pass 2 has handled the indices in [1, k), fingerprint `j` is the
      image's current one when `j` is in that range, and unchanged
      otherwise. */
  lemma {:induction false} AlignedKey(m: Slots, images: seq<Image>, lib: Library, cfg: Config, k: nat, j: nat)
    requires Ready(m, images) && lib.Sound() && 1 <= k <= |images| && j < Max(|m.cacheSrcs|, k)
    ensures Aligned(m, images, lib, cfg, k).cacheSrcs[j] ==
              if 1 <= j < k then Fingerprint(images[j].src) else m.cacheSrcs[j]
  {
    if k > 1 && j < Max(|m.cacheSrcs|, k - 1) {
      AlignedKey(m, images, lib, cfg, k - 1, j);
    }
  }

  /** When pass 2 reaches index `i`, that index is cached exactly when it was
      cached when the pass began. */
  lemma AlignSeesOriginalKey(m: Slots, images: seq<Image>, lib: Library, cfg: Config, i: nat)
    requires Ready(m, images) && lib.Sound() && 1 <= i < |images|
    ensures Cached(Aligned(m, images, lib, cfg, i).cacheSrcs, images, i) == Cached(m.cacheSrcs, images, i)
  {
    if i < |m.cacheSrcs| {
      AlignedKey(m, images, lib, cfg, i, i);
    }
  }

  /** After pass 2 has handled the indices in [1, k), texture `j` is the
      warped image exactly when `j` is in that range, was stale, and its
      estimate passed the validity gate; it is unchanged otherwise. */
  lemma {:induction false} AlignedTexture(m: Slots, images: seq<Image>, lib: Library, cfg: Config, k: nat, j: nat)
    requires Ready(m, images) && lib.Sound() && 1 <= k <= Max(1, |images|) && j < |m.textures|
    ensures Aligned(m, images, lib, cfg, k).textures[j] ==
              if 1 <= j < k && !Cached(m.cacheSrcs, images, j) && !Rejected(AlignmentAt(m, lib, cfg, j))
              then Warped(images[j].src, AlignmentAt(m, lib, cfg, j))
              else m.textures[j]
  {
    if k > 1 {
      var i := k - 1;
      AlignedTexture(m, images, lib, cfg, i, j);
      AlignSeesOriginalKey(m, images, lib, cfg, i);
      var cur := Aligned(m, images, lib, cfg, i);
      assert AlignmentAt(cur, lib, cfg, i) == AlignmentAt(m, lib, cfg, i);
    }
  }

  /** The effects of pass 2 at one index name that index and no other. */
  lemma AlignEffectsAt(cur: Slots, images: seq<Image>, lib: Library, cfg: Config, i: nat)
    requires Ready(cur, images) && lib.Sound() && 1 <= i < |images|
    ensures var step := AlignEffects(cur, images, lib, cfg, i);
      && (forall e :: e in step ==> e.i == i && IsAlignEffect(e))
      && (Match(i) in step <==> !Cached(cur.cacheSrcs, images, i))
      && (Warp(i) in step <==> !Cached(cur.cacheSrcs, images, i) && !Rejected(AlignmentAt(cur, lib, cfg, i)))
      && (AlignFailed(i) in step <==> !Cached(cur.cacheSrcs, images, i) && Rejected(AlignmentAt(cur, lib, cfg, i)))
  {
  }

  /** Every effect of pass 2 over the indices in [1, k) is a pass-2 effect
      naming an index in that range. */
  lemma {:induction false} AlignLogKind(m: Slots, images: seq<Image>, lib: Library, cfg: Config, k: nat, e: Effect)
    requires Ready(m, images) && lib.Sound() && 1 <= k <= Max(1, |images|) && e in AlignLog(m, images, lib, cfg, k)
    ensures 1 <= e.i < k && IsAlignEffect(e)
  {
    var i := k - 1;
    var prev := AlignLog(m, images, lib, cfg, i);
    if e in prev {
      AlignLogKind(m, images, lib, cfg, i, e);
    } else {
      AlignEffectsAt(Aligned(m, images, lib, cfg, i), images, lib, cfg, i);
    }
  }

  /** Pass 2 over the indices in [1, k) makes no pass-2 call for an index
      at or above `k`. */
  lemma AlignLogMissing(m: Slots, images: seq<Image>, lib: Library, cfg: Config, k: nat, j: nat)
    requires Ready(m, images) && lib.Sound() && 1 <= k <= Max(1, |images|) && k <= j
    ensures var log := AlignLog(m, images, lib, cfg, k);
      Match(j) !in log && AlignFailed(j) !in log && Warp(j) !in log
  {
    var log := AlignLog(m, images, lib, cfg, k);
    forall e | e in log
      ensures e.i != j
    {
      AlignLogKind(m, images, lib, cfg, k, e);
    }
  }

  /** The effects of pass 2 over the indices in [1, k), for image `j`: it is
      matched exactly when it is in that range and stale, then either warped
      or reported as not alignable according to the validity gate. */
  lemma {:induction false} AlignLogAt(m: Slots, images: seq<Image>, lib: Library, cfg: Config, k: nat, j: nat)
    requires Ready(m, images) && lib.Sound() && 1 <= k <= Max(1, |images|) && 1 <= j < |images|
    ensures var log := AlignLog(m, images, lib, cfg, k);
      && (Match(j) in log <==> j < k && !Cached(m.cacheSrcs, images, j))
      && (Warp(j) in log <==> j < k && !Cached(m.cacheSrcs, images, j) && !Rejected(AlignmentAt(m, lib, cfg, j)))
      && (AlignFailed(j) in log <==> j < k && !Cached(m.cacheSrcs, images, j) && Rejected(AlignmentAt(m, lib, cfg, j)))
  {
    if k > 1 {
      var i := k - 1;
      var cur := Aligned(m, images, lib, cfg, i);
      var prev := AlignLog(m, images, lib, cfg, i);
      var step := AlignEffects(cur, images, lib, cfg, i);
      assert AlignLog(m, images, lib, cfg, k) == prev + step;
      AlignEffectsAt(cur, images, lib, cfg, i);
      if j < i {
        AlignLogAt(m, images, lib, cfg, i, j);
        OtherIndexAbsent(step, i, j);
      } else if j == i {
        AlignSeesOriginalKey(m, images, lib, cfg, i);
        assert AlignmentAt(cur, lib, cfg, i) == AlignmentAt(m, lib, cfg, i);
        AlignLogMissing(m, images, lib, cfg, i, j);
      } else {
        AlignLogMissing(m, images, lib, cfg, i, j);
        OtherIndexAbsent(step, i, j);
      }
    }
  }

  // ---------------------------------------------------------------------
  // The whole call

  /** After `updateImages` image `j` carries its current fingerprint, also
      when its alignment was rejected. */
  lemma UpdateFingerprintsImage(s: Slots, images: seq<Image>, lib: Library, cfg: Config, j: nat)
    requires s.Valid() && lib.Sound() && j < |images|
    ensures Cached(Updated(s, images, lib, cfg).cacheSrcs, images, j)
  {
    var n := |images|;
    var e := Extracted(s, images, lib, cfg, n);
    if j > 0 {
      ExtractedCacheSrcs(s, images, lib, cfg, n);
      AlignedKey(e, images, lib, cfg, n, j);
    }
  }

  /** After `updateImages` every image carries its current fingerprint;
      fingerprints past the end of the image list are left as they were. */
  lemma UpdateFingerprintsEveryImage(s: Slots, images: seq<Image>, lib: Library, cfg: Config)
    requires s.Valid() && lib.Sound()
    ensures var r := Updated(s, images, lib, cfg);
      && |r.cacheSrcs| == Max(|s.cacheSrcs|, |images|)
      && Settled(r, images)
      && forall j :: |images| <= j < |r.cacheSrcs| ==> r.cacheSrcs[j] == s.cacheSrcs[j]
  {
    var n := |images|;
    if n > 0 {
      var e := Extracted(s, images, lib, cfg, n);
      ExtractedCacheSrcs(s, images, lib, cfg, n);
      forall j | n <= j < Max(|s.cacheSrcs|, n)
        ensures Updated(s, images, lib, cfg).cacheSrcs[j] == s.cacheSrcs[j]
      {
        AlignedKey(e, images, lib, cfg, n, j);
      }
    }
    forall j | 0 <= j < n
      ensures Cached(Updated(s, images, lib, cfg).cacheSrcs, images, j)
    {
      UpdateFingerprintsImage(s, images, lib, cfg, j);
    }
  }

  /** `updateImages` replaces the features of exactly the stale images with
      what the configured detector finds on their detection frames, and adds
      slots for new images; every other slot is left as it was. */
  lemma UpdateReplacesOnlyStaleFeatures(s: Slots, images: seq<Image>, lib: Library, cfg: Config)
    requires s.Valid() && lib.Sound()
    ensures var r := Updated(s, images, lib, cfg);
      && |r.keypoints| == Max(|s.keypoints|, |images|)
      && forall j :: 0 <= j < |r.keypoints| ==>
           && r.keypoints[j] == (if j < |images| && !Cached(s.cacheSrcs, images, j) then Features(lib, cfg, images[j]).0 else s.keypoints[j])
           && r.descriptors[j] == (if j < |images| && !Cached(s.cacheSrcs, images, j) then Features(lib, cfg, images[j]).1 else s.descriptors[j])
  {
    forall j | 0 <= j < Max(|s.keypoints|, |images|)
      ensures var r := Extracted(s, images, lib, cfg, |images|);
        && r.keypoints[j] == (if j < |images| && !Cached(s.cacheSrcs, images, j) then Features(lib, cfg, images[j]).0 else s.keypoints[j])
        && r.descriptors[j] == (if j < |images| && !Cached(s.cacheSrcs, images, j) then Features(lib, cfg, images[j]).1 else s.descriptors[j])
    {
      ExtractedSlot(s, images, lib, cfg, |images|, j);
    }
  }

  /** Texture `j` after `updateImages`: a stale baseline is uploaded as it
      is; a stale non-baseline image is warped by the homography estimated
      from the updated features when that estimate passes the validity gate;
      any other texture is the old one, or blank when it was just
      created. */
  lemma UpdateTexture(s: Slots, images: seq<Image>, lib: Library, cfg: Config, j: nat)
    requires s.Valid() && lib.Sound() && j < Max(|s.textures|, |images|)
    ensures var r := Updated(s, images, lib, cfg);
      j < |r.textures| &&
      r.textures[j] ==
        if j == 0 && 0 < |images| && !Cached(s.cacheSrcs, images, 0) then Unwarped(images[0].src)
        else if 1 <= j < |images| && !Cached(s.cacheSrcs, images, j) && !Rejected(AlignmentAt(r, lib, cfg, j))
        then Warped(images[j].src, AlignmentAt(r, lib, cfg, j))
        else if j < |s.textures| then s.textures[j] else Blank
  {
    var n := |images|;
    var e := Extracted(s, images, lib, cfg, n);
    ExtractedSlot(s, images, lib, cfg, n, j);
    AlignedTexture(e, images, lib, cfg, Max(1, n), j);
    if 1 <= j < n {
      ExtractKeepsOtherKeys(s, images, lib, cfg, n, j);
    }
  }

  /** A log made of pass-1 effects followed by pass-2 effects switches
      phase exactly once. */
  lemma PhasesOfConcat(first: seq<Effect>, second: seq<Effect>)
    requires forall e :: e in first ==> !IsAlignEffect(e)
    requires forall e :: e in second ==> IsAlignEffect(e)
    ensures forall a :: 0 <= a < |first + second| ==> (IsAlignEffect((first + second)[a]) <==> a >= |first|)
  {
    var log := first + second;
    forall a | 0 <= a < |log|
      ensures IsAlignEffect(log[a]) <==> a >= |first|
    {
      if a < |first| {
        assert log[a] == first[a] && first[a] in first;
      } else {
        assert log[a] == second[a - |first|] && second[a - |first|] in second;
      }
    }
  }

  /** The library calls of `updateImages` come in two phases: every pass-1
      effect precedes every pass-2 effect, and pass 2 never touches the
      baseline. */
  lemma UpdateLogPhases(s: Slots, images: seq<Image>, lib: Library, cfg: Config)
    requires s.Valid() && lib.Sound()
    ensures var log := UpdateLog(s, images, lib, cfg);
      && (forall a :: 0 <= a < |log| ==> (IsAlignEffect(log[a]) <==> a >= |ExtractLog(s, images, lib, cfg, |images|)|))
      && (forall e :: e in log && IsAlignEffect(e) ==> 1 <= e.i < |images|)
  {
    var n := |images|;
    var e := Extracted(s, images, lib, cfg, n);
    var first := ExtractLog(s, images, lib, cfg, n);
    var second := AlignLog(e, images, lib, cfg, Max(1, n));
    assert UpdateLog(s, images, lib, cfg) == first + second;
    forall x | x in first
      ensures !IsAlignEffect(x)
    {
      ExtractLogKind(s, images, lib, cfg, n, x);
    }
    forall x | x in second
      ensures IsAlignEffect(x) && 1 <= x.i < n
    {
      AlignLogKind(e, images, lib, cfg, Max(1, n), x);
    }
    PhasesOfConcat(first, second);
  }

  /** The pass-1 calls of `updateImages` for image `j`: detection, and the
      release of the replaced slots, happen exactly when it is stale. */
  lemma UpdateDetectsExactlyStale(s: Slots, images: seq<Image>, lib: Library, cfg: Config, j: nat)
    requires s.Valid() && lib.Sound() && j < |images|
    ensures var log := UpdateLog(s, images, lib, cfg);
      && (Detect(j) in log <==> !Cached(s.cacheSrcs, images, j))
      && (ReleaseKeypoints(j) in log <==> !Cached(s.cacheSrcs, images, j) && j < |s.keypoints|)
      && (ReleaseDescriptors(j) in log <==> !Cached(s.cacheSrcs, images, j) && j < |s.descriptors|)
  {
    var n := |images|;
    var e := Extracted(s, images, lib, cfg, n);
    var second := AlignLog(e, images, lib, cfg, Max(1, n));
    assert UpdateLog(s, images, lib, cfg) == ExtractLog(s, images, lib, cfg, n) + second;
    ExtractLogAt(s, images, lib, cfg, n, j);
    forall x | x in second
      ensures IsAlignEffect(x)
    {
      AlignLogKind(e, images, lib, cfg, Max(1, n), x);
    }
  }

  /** The pass-2 calls of `updateImages` for image `j` > 0: it is matched
      exactly when it is stale, then warped or reported as not alignable
      according to the validity gate on the estimate from the updated
      features. */
  lemma UpdateAlignsExactlyStale(s: Slots, images: seq<Image>, lib: Library, cfg: Config, j: nat)
    requires s.Valid() && lib.Sound() && 1 <= j < |images|
    ensures var log := UpdateLog(s, images, lib, cfg);
      var r := Updated(s, images, lib, cfg);
      && (Match(j) in log <==> !Cached(s.cacheSrcs, images, j))
      && (Warp(j) in log <==> !Cached(s.cacheSrcs, images, j) && !Rejected(AlignmentAt(r, lib, cfg, j)))
      && (AlignFailed(j) in log <==> !Cached(s.cacheSrcs, images, j) && Rejected(AlignmentAt(r, lib, cfg, j)))
  {
    var n := |images|;
    var e := Extracted(s, images, lib, cfg, n);
    var first := ExtractLog(s, images, lib, cfg, n);
    assert UpdateLog(s, images, lib, cfg) == first + AlignLog(e, images, lib, cfg, n);
    AlignLogAt(e, images, lib, cfg, n, j);
    ExtractKeepsOtherKeys(s, images, lib, cfg, n, j);
    forall x | x in first
      ensures !IsAlignEffect(x)
    {
      ExtractLogKind(s, images, lib, cfg, n, x);
    }
  }

  /** A stale image whose estimate fails the validity gate keeps its texture
      but still gets its fingerprint, so the next call does not retry it; the
      failure is reported and nothing is warped. */
  lemma RejectionKeepsTextureButRecordsKey(s: Slots, images: seq<Image>, lib: Library, cfg: Config, j: nat)
    requires s.Valid() && lib.Sound() && 1 <= j < |images| && !Cached(s.cacheSrcs, images, j)
    requires Rejected(AlignmentAt(Updated(s, images, lib, cfg), lib, cfg, j))
    ensures var r := Updated(s, images, lib, cfg);
      && Cached(r.cacheSrcs, images, j)
      && r.textures[j] == (if j < |s.textures| then s.textures[j] else Blank)
      && AlignFailed(j) in UpdateLog(s, images, lib, cfg)
      && Warp(j) !in UpdateLog(s, images, lib, cfg)
  {
    UpdateFingerprintsImage(s, images, lib, cfg, j);
    UpdateTexture(s, images, lib, cfg, j);
    UpdateAlignsExactlyStale(s, images, lib, cfg, j);
  }

  // ---------------------------------------------------------------------
  // A second call

  /** Pass 1 leaves a settled state as it is and only decodes (when a debug
      canvas is attached). */
  lemma {:induction false} SettledExtractIsIdentity(s: Slots, images: seq<Image>, lib: Library, cfg: Config, k: nat)
    requires s.Valid() && lib.Sound() && k <= |images| && Settled(s, images)
    ensures Extracted(s, images, lib, cfg, k) == s
    ensures forall e :: e in ExtractLog(s, images, lib, cfg, k) ==> e.Decode?
    ensures !cfg.debug ==> ExtractLog(s, images, lib, cfg, k) == []
  {
    if k > 0 {
      SettledExtractIsIdentity(s, images, lib, cfg, k - 1);
      assert Cached(s.cacheSrcs, images, k - 1);
    }
  }

  /** Pass 2 leaves a settled state as it is and makes no library call. */
  lemma {:induction false} SettledAlignIsIdentity(m: Slots, images: seq<Image>, lib: Library, cfg: Config, k: nat)
    requires m.Valid() && Settled(m, images) && lib.Sound() && 1 <= k <= Max(1, |images|)
    ensures Ready(m, images)
    ensures Aligned(m, images, lib, cfg, k) == m
    ensures AlignLog(m, images, lib, cfg, k) == []
  {
    if |images| > 0 {
      assert Cached(m.cacheSrcs, images, 0);
    }
    if k > 1 {
      SettledAlignIsIdentity(m, images, lib, cfg, k - 1);
      assert Cached(m.cacheSrcs, images, k - 1);
    }
  }

  /** `updateImages` is idempotent: a second call with the same images and
      configuration changes nothing, and makes no library call beyond the
      debug-canvas decoding. */
  lemma UpdateIsIdempotent(s: Slots, images: seq<Image>, lib: Library, cfg: Config)
    requires s.Valid() && lib.Sound()
    ensures var r := Updated(s, images, lib, cfg);
      && Updated(r, images, lib, cfg) == r
      && (forall e :: e in UpdateLog(r, images, lib, cfg) ==> e.Decode?)
      && (!cfg.debug ==> UpdateLog(r, images, lib, cfg) == [])
  {
    var r := Updated(s, images, lib, cfg);
    UpdateFingerprintsEveryImage(s, images, lib, cfg);
    SettledExtractIsIdentity(r, images, lib, cfg, |images|);
    SettledAlignIsIdentity(r, images, lib, cfg, Max(1, |images|));
  }

  /** The cache key holds no configuration: after `updateImages`, a second
      call with the same images but another detector, width limit or ratio
      changes nothing and calls nothing except the debug-canvas decoding. */
  lemma ConfigChangeRecomputesNothing(s: Slots, images: seq<Image>, lib: Library, cfg: Config, cfg2: Config)
    requires s.Valid() && lib.Sound()
    ensures var r := Updated(s, images, lib, cfg);
      && Updated(r, images, lib, cfg2) == r
      && (forall e :: e in UpdateLog(r, images, lib, cfg2) ==> e.Decode?)
      && (!cfg2.debug ==> UpdateLog(r, images, lib, cfg2) == [])
  {
    var r := Updated(s, images, lib, cfg);
    UpdateFingerprintsEveryImage(s, images, lib, cfg);
    SettledExtractIsIdentity(r, images, lib, cfg2, |images|);
    SettledAlignIsIdentity(r, images, lib, cfg2, Max(1, |images|));
  }

  /** Replacing the baseline of a settled state re-detects and re-uploads
      the baseline only: the other images are neither matched again nor
      re-warped, so they stay aligned to the old baseline. */
  lemma NewBaselineDoesNotRealign(s: Slots, images: seq<Image>, lib: Library, cfg: Config, baseline: Image)
    requires s.Valid() && lib.Sound() && |images| > 0 && Settled(s, images)
    requires Fingerprint(baseline.src) != Fingerprint(images[0].src)
    ensures var next := images[0 := baseline];
      var r := Updated(s, next, lib, cfg);
      && r.keypoints[0] == Features(lib, cfg, baseline).0
      && r.textures[0] == Unwarped(baseline.src)
      && forall j :: 1 <= j < |images| ==>
           && r.textures[j] == s.textures[j]
           && r.keypoints[j] == s.keypoints[j]
           && Match(j) !in UpdateLog(s, next, lib, cfg)
  {
    var next := images[0 := baseline];
    assert Cached(s.cacheSrcs, images, 0);
    assert !Cached(s.cacheSrcs, next, 0);
    UpdateReplacesOnlyStaleFeatures(s, next, lib, cfg);
    UpdateTexture(s, next, lib, cfg, 0);
    forall j | 1 <= j < |images|
      ensures var r := Updated(s, next, lib, cfg);
        && r.textures[j] == s.textures[j]
        && r.keypoints[j] == s.keypoints[j]
        && Match(j) !in UpdateLog(s, next, lib, cfg)
    {
      assert Cached(s.cacheSrcs, images, j);
      assert next[j] == images[j];
      UpdateTexture(s, next, lib, cfg, j);
      UpdateAlignsExactlyStale(s, next, lib, cfg, j);
    }
  }

  // ---------------------------------------------------------------------
  // The baseline upload (render.ts:204-206)

  /** Two images were aligned, so texture 1 was bound last (by its warp, or
      by drawing it); the baseline is then removed and the remaining image
      becomes the new, stale baseline. Texture 0 already exists, so nothing
      binds it: as written the upload overwrites texture 1 and texture 0
      still shows the removed image, while the corrected upload replaces
      texture 0. */
  lemma AsWrittenUploadMissesTexture0(removed: string, kept: string, h: Homography)
    requires removed != kept
    ensures var textures := [Unwarped(removed), Warped(kept, h)];
      && BaselineUploadAsWritten(textures, 1, kept) == [Unwarped(removed), Unwarped(kept)]
      && BaselineUpload(textures, kept) == [Unwarped(kept), Warped(kept, h)]
  {
  }
}
