// The per-image alignment logic of `Renderer.updateImages`: the cache
// fingerprint, the detection-frame width, the nearest/second-nearest ratio
// filter, the two point lists, the point matrices handed to
// `findHomography`, and the validity gate on its result.
module Matching {
  import opened Dom
  import opened Vision

  /** The cache fingerprint of an image: the first 100 characters of its
      `src` (render.ts:151, :209, :218, :221). */
  function Fingerprint(src: string): (r: string)
    ensures |r| == Min(|src|, 100) && r <= src
  {
    Substring0(src, 100)
  }

  /** The width of the detection frame: `Math.min(naturalWidth, limit)`.
      The frame is never wider than the image (no upscaling) nor than the
      limit, and it is one of the two. */
  function DetectionWidth(naturalWidth: nat, limit: int): (w: int)
    ensures w <= naturalWidth && w <= limit
    ensures w == naturalWidth || w == limit
    ensures limit >= 0 ==> w >= 0
  {
    Min(naturalWidth, limit)
  }

  /** The grey frame the detector sees for `img`. */
  function DetectionFrame(img: Image, limit: int): Frame
  {
    Frame(img.src, DetectionWidth(img.naturalWidth, limit))
  }

  // ---------------------------------------------------------------------
  // Ratio filter (render.ts:230-237)

  /** The ratio test on one kNN entry: keep the best candidate when its
      distance is at most `ratio` times the second-best distance. */
  predicate Passes(entry: seq<DMatch>, ratio: real)
    requires |entry| >= 2
  {
    entry[0].distance <= entry[1].distance * ratio
  }

  /** The positions, in order, of the entries that pass the ratio test. */
  function KeptIndices(matches: seq<seq<DMatch>>, ratio: real): seq<nat>
    requires Paired(matches)
  {
    if matches == [] then []
    else
      var last := |matches| - 1;
      KeptIndices(matches[..last], ratio) + (if Passes(matches[last], ratio) then [last] else [])
  }

  /** `good_matches` after the filtering loop: the best candidate of every
      entry that passes the ratio test, in entry order. */
  function GoodOf(matches: seq<seq<DMatch>>, ratio: real): seq<DMatch>
    requires Paired(matches)
  {
    if matches == [] then []
    else
      var last := |matches| - 1;
      GoodOf(matches[..last], ratio) + (if Passes(matches[last], ratio) then [matches[last][0]] else [])
  }

  /** The kept positions are strictly increasing, in range, and are exactly
      the entries that pass the ratio test. */
  lemma {:induction false} KeptIndicesExact(matches: seq<seq<DMatch>>, ratio: real)
    requires Paired(matches)
    ensures forall k :: 0 <= k < |KeptIndices(matches, ratio)| ==> KeptIndices(matches, ratio)[k] < |matches|
    ensures forall a, b :: 0 <= a < b < |KeptIndices(matches, ratio)| ==>
              KeptIndices(matches, ratio)[a] < KeptIndices(matches, ratio)[b]
    ensures forall j :: 0 <= j < |matches| ==> (j in KeptIndices(matches, ratio) <==> Passes(matches[j], ratio))
  {
    if matches != [] {
      var last := |matches| - 1;
      var init := matches[..last];
      KeptIndicesExact(init, ratio);
      var k0 := KeptIndices(init, ratio);
      assert KeptIndices(matches, ratio) == k0 + (if Passes(matches[last], ratio) then [last] else []);
      assert last !in k0;
      forall j | 0 <= j < last
        ensures j in KeptIndices(matches, ratio) <==> Passes(matches[j], ratio)
      {
        assert init[j] == matches[j];
      }
    }
  }

  /** `good_matches` is the sequence of best candidates at the kept
      positions: an order-preserving subsequence of the best matches. */
  lemma {:induction false} GoodOfIsKeptBest(matches: seq<seq<DMatch>>, ratio: real)
    requires Paired(matches)
    ensures |GoodOf(matches, ratio)| == |KeptIndices(matches, ratio)|
    ensures forall k :: 0 <= k < |GoodOf(matches, ratio)| ==>
              KeptIndices(matches, ratio)[k] < |matches| &&
              GoodOf(matches, ratio)[k] == matches[KeptIndices(matches, ratio)[k]][0]
  {
    KeptIndicesExact(matches, ratio);
    if matches != [] {
      var last := |matches| - 1;
      var init := matches[..last];
      GoodOfIsKeptBest(init, ratio);
      KeptIndicesExact(init, ratio);
      forall k | 0 <= k < |GoodOf(init, ratio)|
        ensures GoodOf(matches, ratio)[k] == matches[KeptIndices(matches, ratio)[k]][0]
      {
        assert init[KeptIndices(init, ratio)[k]] == matches[KeptIndices(init, ratio)[k]];
      }
    }
  }

  /** Whatever the library returns, every kept match addresses a keypoint of
      the baseline (query) and of the target (train). */
  lemma GoodOfInRange(matches: seq<seq<DMatch>>, ratio: real, queryRows: nat, trainRows: nat)
    requires KnnShaped(matches, queryRows, trainRows)
    ensures Paired(matches)
    ensures forall k :: 0 <= k < |GoodOf(matches, ratio)| ==>
              GoodOf(matches, ratio)[k].queryIdx < queryRows && GoodOf(matches, ratio)[k].trainIdx < trainRows
  {
    GoodOfIsKeptBest(matches, ratio);
  }

  /** The filtering loop of render.ts:230-237. */
  method GoodMatches(matches: seq<seq<DMatch>>, ratio: real) returns (good: seq<DMatch>)
    requires Paired(matches)
    ensures good == GoodOf(matches, ratio)
  {
    good := [];
    var j := 0;
    while j < |matches|
      invariant 0 <= j <= |matches|
      invariant good == GoodOf(matches[..j], ratio)
    {
      var entry := matches[j];
      var dMatch1, dMatch2 := entry[0], entry[1];
      if dMatch1.distance <= dMatch2.distance * ratio {
        good := good + [dMatch1];
      }
      assert matches[..j + 1][..j] == matches[..j];
      j := j + 1;
    }
    assert matches[..j] == matches;
  }

  // ---------------------------------------------------------------------
  // Point lists (render.ts:243-250)

  function QueryIndices(good: seq<DMatch>): (r: seq<nat>)
    ensures |r| == |good| && forall k :: 0 <= k < |good| ==> r[k] == good[k].queryIdx
  {
    seq(|good|, k requires 0 <= k < |good| => good[k].queryIdx)
  }

  function TrainIndices(good: seq<DMatch>): (r: seq<nat>)
    ensures |r| == |good| && forall k :: 0 <= k < |good| ==> r[k] == good[k].trainIdx
  {
    seq(|good|, k requires 0 <= k < |good| => good[k].trainIdx)
  }

  /** Every kept match addresses a baseline keypoint (`queryIdx`) and a
      target keypoint (`trainIdx`). */
  predicate InRange(good: seq<DMatch>, kp0: seq<KeyPoint>, kpi: seq<KeyPoint>)
  {
    forall k :: 0 <= k < |good| ==> good[k].queryIdx < |kp0| && good[k].trainIdx < |kpi|
  }

  /** Every index addresses a keypoint. */
  predicate Addresses(indices: seq<nat>, kps: seq<KeyPoint>)
  {
    forall k :: 0 <= k < |indices| ==> indices[k] < |kps|
  }

  /** The flat `[x0, y0, x1, y1, ...]` list of the addressed keypoints'
      positions. */
  function Coords(kps: seq<KeyPoint>, indices: seq<nat>): seq<real>
    requires Addresses(indices, kps)
  {
    if indices == [] then []
    else
      var p := kps[indices[|indices| - 1]].pt;
      Coords(kps, indices[..|indices| - 1]) + [p.x, p.y]
  }

  /** Two coordinates per index: entries 2k and 2k+1 are the x and y of the
      k-th addressed keypoint. */
  lemma {:induction false} CoordsAt(kps: seq<KeyPoint>, indices: seq<nat>)
    requires Addresses(indices, kps)
    ensures |Coords(kps, indices)| == 2 * |indices|
    ensures forall k :: 0 <= k < |indices| ==>
              Coords(kps, indices)[2 * k] == kps[indices[k]].pt.x &&
              Coords(kps, indices)[2 * k + 1] == kps[indices[k]].pt.y
  {
    if indices != [] {
      var init := indices[..|indices| - 1];
      CoordsAt(kps, init);
      forall k | 0 <= k < |init|
        ensures Coords(kps, indices)[2 * k] == kps[indices[k]].pt.x
        ensures Coords(kps, indices)[2 * k + 1] == kps[indices[k]].pt.y
      {
        assert init[k] == indices[k];
      }
    }
  }

  /** The loop of render.ts:243-250: `points1` gets the baseline position of
      each kept match (through `queryIdx`), `points2` the target position
      (through `trainIdx`). */
  method PointLists(kp0: seq<KeyPoint>, kpi: seq<KeyPoint>, good: seq<DMatch>)
    returns (points1: seq<real>, points2: seq<real>)
    requires InRange(good, kp0, kpi)
    ensures points1 == Coords(kp0, QueryIndices(good))
    ensures points2 == Coords(kpi, TrainIndices(good))
    ensures |points1| == |points2| == 2 * |good|
  {
    points1, points2 := [], [];
    var j := 0;
    while j < |good|
      invariant 0 <= j <= |good|
      invariant points1 == Coords(kp0, QueryIndices(good[..j]))
      invariant points2 == Coords(kpi, TrainIndices(good[..j]))
    {
      points1 := points1 + [kp0[good[j].queryIdx].pt.x];
      points1 := points1 + [kp0[good[j].queryIdx].pt.y];
      points2 := points2 + [kpi[good[j].trainIdx].pt.x];
      points2 := points2 + [kpi[good[j].trainIdx].pt.y];
      assert QueryIndices(good[..j + 1])[..j] == QueryIndices(good[..j]);
      assert TrainIndices(good[..j + 1])[..j] == TrainIndices(good[..j]);
      j := j + 1;
    }
    assert good[..j] == good;
    CoordsAt(kp0, QueryIndices(good));
    CoordsAt(kpi, TrainIndices(good));
  }

  // ---------------------------------------------------------------------
  // The point matrices handed to findHomography (render.ts:252-257)

  /** A row of a two-channel point matrix: written by `data32F.set`, or
      left as allocated. */
  datatype Cell = Written(p: Point2) | Unwritten

  /** The matrix as render.ts:252-255 builds it: `new cv.Mat(points.length,
      1, cv.CV_32FC2)` has one two-channel row per COORDINATE, and
      `data32F.set(points)` fills only the first `points.length` floats, that
      is the first half of the rows. */
  function PackPointsAsWritten(coords: seq<real>): seq<Cell>
    requires |coords| % 2 == 0
  {
    seq(|coords|, r requires 0 <= r < |coords| =>
      if 2 * r + 1 < |coords| then Written(Point2(coords[2 * r], coords[2 * r + 1])) else Unwritten)
  }

  /** The matrix with one row per coordinate pair, as `findHomography`
      expects it: `new cv.Mat(points.length / 2, 1, cv.CV_32FC2)`. */
  function PackPoints(coords: seq<real>): seq<Point2>
    requires |coords| % 2 == 0
  {
    seq(|coords| / 2, r requires 0 <= r < |coords| / 2 => Point2(coords[2 * r], coords[2 * r + 1]))
  }

  /** As written, a list of m kept matches becomes a matrix of 2m rows: the
      m correspondences followed by m rows that no match wrote. */
  lemma AsWrittenMatrixHasUnwrittenRows(kps: seq<KeyPoint>, indices: seq<nat>)
    requires Addresses(indices, kps)
    ensures |Coords(kps, indices)| % 2 == 0
    ensures |PackPointsAsWritten(Coords(kps, indices))| == 2 * |indices|
    ensures forall r :: 0 <= r < |indices| ==> PackPointsAsWritten(Coords(kps, indices))[r] == Written(kps[indices[r]].pt)
    ensures forall r :: |indices| <= r < 2 * |indices| ==> PackPointsAsWritten(Coords(kps, indices))[r] == Unwritten
  {
    CoordsAt(kps, indices);
  }

  /** Corrected, the matrix rows are exactly the addressed keypoints'
      positions, one per kept match. */
  lemma PackedRowsAreKeypoints(kps: seq<KeyPoint>, indices: seq<nat>)
    requires Addresses(indices, kps)
    ensures |Coords(kps, indices)| % 2 == 0
    ensures |PackPoints(Coords(kps, indices))| == |indices|
    ensures forall r :: 0 <= r < |indices| ==> PackPoints(Coords(kps, indices))[r] == kps[indices[r]].pt
  {
    CoordsAt(kps, indices);
  }

  /** The two matrices of one alignment hold, row for row, the target and
      baseline positions of the same kept match. */
  lemma CorrespondencesArePaired(kp0: seq<KeyPoint>, kpi: seq<KeyPoint>, good: seq<DMatch>)
    requires InRange(good, kp0, kpi)
    ensures |Coords(kp0, QueryIndices(good))| % 2 == 0 && |Coords(kpi, TrainIndices(good))| % 2 == 0
    ensures |PackPoints(Coords(kpi, TrainIndices(good)))| == |PackPoints(Coords(kp0, QueryIndices(good)))| == |good|
    ensures forall k :: 0 <= k < |good| ==>
              PackPoints(Coords(kpi, TrainIndices(good)))[k] == kpi[good[k].trainIdx].pt &&
              PackPoints(Coords(kp0, QueryIndices(good)))[k] == kp0[good[k].queryIdx].pt
  {
    PackedRowsAreKeypoints(kp0, QueryIndices(good));
    PackedRowsAreKeypoints(kpi, TrainIndices(good));
  }

  // ---------------------------------------------------------------------
  // Validity gate (render.ts:259)

  /** `h.data64F[0]`; on an empty array JavaScript yields `undefined`, which
      `isNaN` reports as not-a-number. */
  function Element0(h: Homography): Double
  {
    if |h.data64F| == 0 then NaN else h.data64F[0]
  }

  /** `h.empty() || isNaN(h.data64F[0])`. */
  predicate Rejected(h: Homography)
  {
    h.empty || Element0(h).NaN?
  }

  /** The gate reads element 0 only: a homography it accepts stays accepted
      whatever is written into any other element, NaN included. */
  lemma GateIgnoresOtherElements(h: Homography, k: nat, v: Double)
    requires !Rejected(h) && 1 <= k < |h.data64F|
    ensures !Rejected(h.(data64F := h.data64F[k := v]))
  {
  }

  /** A non-empty estimate with a NaN in its middle element passes. */
  lemma GateAcceptsNaNOutsideElement0()
    ensures !Rejected(Homography(false, [Finite(1.0), Finite(0.0), Finite(0.0), Finite(0.0), NaN,
                                         Finite(0.0), Finite(0.0), Finite(0.0), Finite(1.0)]))
  {
  }

  // ---------------------------------------------------------------------
  // One alignment, as a function of the two feature sets

  /** The homography pass 2 estimates for target features (`kpi`, `di`)
      against the baseline's (`kp0`, `d0`): kNN matching with k = 2, the ratio
      filter, the two point lists, and `findHomography(mat2, mat1)`, which
      maps target positions to baseline positions. */
  function Alignment(lib: Library, ratio: real, kp0: seq<KeyPoint>, d0: DescriptorMat,
                     kpi: seq<KeyPoint>, di: DescriptorMat): Homography
    requires lib.Sound() && |kp0| == |d0.rows| && |kpi| == |di.rows|
  {
    var matches := lib.knnMatch(d0, di);
    GoodOfInRange(matches, ratio, |d0.rows|, |di.rows|);
    var good := GoodOf(matches, ratio);
    CorrespondencesArePaired(kp0, kpi, good);
    lib.findHomography(PackPoints(Coords(kpi, TrainIndices(good))), PackPoints(Coords(kp0, QueryIndices(good))))
  }

  /** The estimation step of pass 2 (render.ts:226-257): kNN-match the
      baseline's descriptors against the target's, keep the matches that pass
      the ratio test, collect their point pairs and fit a homography mapping
      the target's points onto the baseline's. */
  method EstimateHomography(lib: Library, ratio: real, kp0: seq<KeyPoint>, d0: DescriptorMat,
                            kpi: seq<KeyPoint>, di: DescriptorMat) returns (h: Homography)
    requires lib.Sound() && |kp0| == |d0.rows| && |kpi| == |di.rows|
    ensures h == Alignment(lib, ratio, kp0, d0, kpi, di)
  {
    var matches := lib.knnMatch(d0, di);
    var good := GoodMatches(matches, ratio);
    GoodOfInRange(matches, ratio, |d0.rows|, |di.rows|);
    var points1, points2 := PointLists(kp0, kpi, good);
    h := lib.findHomography(PackPoints(points2), PackPoints(points1));
  }
}
