// The OpenCV values the core handles, and the three library calls it
// makes, as opaque functions. Nothing of OpenCV's algorithms is modelled:
// feature detection, brute-force k-nearest-neighbour matching and RANSAC
// homography estimation are function values supplied by the caller, and
// `Library.Sound` states the only facts about their results that the core
// relies on.
module Vision {

  /** The detector classes the renderer can instantiate (`cv.AKAZE` or `cv.ORB`). */
  datatype DetectorType = AKAZE | ORB

  /** A 2-D position in detection-frame pixels (`KeyPoint.pt`). */
  datatype Point2 = Point2(x: real, y: real)

  /** A detected keypoint; the core reads only its position. */
  datatype KeyPoint = KeyPoint(pt: Point2)

  /** A descriptor matrix: one row of descriptor bytes per keypoint. */
  datatype DescriptorMat = DescriptorMat(rows: seq<seq<bv8>>)

  /** `cv.DMatch`: a query row of the baseline, a train row of the target,
      and their descriptor distance. */
  datatype DMatch = DMatch(queryIdx: nat, trainIdx: nat, distance: real)

  /** The grey detection frame handed to the detector: the image `src`
      drawn at `width` pixels wide. */
  datatype Frame = Frame(src: string, width: int)

  /** A 64-bit float as far as the validity gate can tell them apart. */
  datatype Double = Finite(value: real) | Infinite(positive: bool) | NaN

  /** The `cv.Mat` returned by `findHomography`: `empty` when estimation
      failed, otherwise its `data64F` entries (nine of them, row-major). */
  datatype Homography = Homography(empty: bool, data64F: seq<Double>)

  /** Every kNN entry holds a best and a second-best candidate (the code
      reads `match.get(1)` unconditionally). */
  predicate Paired(matches: seq<seq<DMatch>>)
  {
    forall j :: 0 <= j < |matches| ==> |matches[j]| >= 2
  }

  /** The shape the ratio test depends on: every kNN entry is paired, and
      the best candidate's indices address rows of the two descriptor
      matrices. */
  predicate KnnShaped(matches: seq<seq<DMatch>>, queryRows: nat, trainRows: nat)
  {
    && Paired(matches)
    && forall j :: 0 <= j < |matches| ==>
         matches[j][0].queryIdx < queryRows && matches[j][0].trainIdx < trainRows
  }

  /** The library calls of the alignment pass, supplied from outside. */
  datatype Library = Library(
    detect: (DetectorType, Frame) -> (seq<KeyPoint>, DescriptorMat),
    knnMatch: (DescriptorMat, DescriptorMat) -> seq<seq<DMatch>>,
    findHomography: (seq<Point2>, seq<Point2>) -> Homography)
  {
    /** What the core assumes of the library: `detectAndCompute` yields one
        descriptor row per keypoint, and `knnMatch` with k = 2 yields entries
        of the shape `KnnShaped` describes. */
    ghost predicate Sound()
    {
      && (forall d, f :: |detect(d, f).0| == |detect(d, f).1.rows|)
      && (forall q, t :: KnnShaped(knnMatch(q, t), |q.rows|, |t.rows|))
    }
  }
}
