# Image alignment core of the photo compositor, in Dafny

The application loads several photographs of one scene. It aligns every photo
onto the first one (the baseline) by feature matching and draws them as
WebGL textures. This project models two parts of it.

**`Renderer.updateImages` and `Renderer.render`** (src/render.ts).
`updateImages` makes two passes over the image list.

- Pass 1 re-extracts the keypoints and descriptors of every image whose cache
  fingerprint is stale. The fingerprint is the first 100 characters of its
  `src`. The old native objects are released first. A missing texture is
  created. A stale baseline is uploaded as it is, and its fingerprint is
  recorded.
- Pass 2 visits every stale non-baseline image. It records the fingerprint
  first. Then it kNN-matches the image against the baseline (k = 2), keeps the
  matches that pass the ratio test and builds two point lists. It estimates a
  homography and either warps the image into its texture or, when the estimate
  fails the gate `h.empty() || isNaN(h.data64F[0])`, reports that the image
  could not be aligned.

`render` draws either every texture in order or only the selected one.

**The application store** (src/state.ts): the image list with `addImage` and
`removeImage`, the default settings, and the per-image colours.

Layout:

- `dom.dfy`: the image element and JavaScript's `substring(0, n)`.
- `vision.dfy`: the OpenCV values. It also defines the three library calls
  (`detect`, `knnMatch`, `findHomography`) as a `Library` of function values.
  `Sound()` states what OpenCV guarantees about their shapes.
- `matching.dfy`: the per-image logic of pass 2 and the detection width.
- `render.dfy`: `updateImages` is specified by pure step functions folded
  over the indices. `Extracted` covers pass 1, `Aligned` pass 2 and `Updated`
  the whole call. `UpdateLog` is the sequence of native calls made. The class
  `Renderer` holds the fields as sequences, and its methods are proved equal
  to those functions.
- `render_props.dfy`: what the source promises about `updateImages`, stated
  about `Updated` and `UpdateLog`.
- `store.dfy`: the store.

Inputs that come from outside the core are parameters:

- the OpenCV calls: the `Library` value;
- the decoded image size: `Image.naturalWidth` and `naturalHeight`;
- whether a debug canvas is attached: `Renderer.debugCanvas`;
- the string-to-colour hash: the `stc` parameter of `Colors`.

Three facts about the code shape what is proved:

- The feature cache key is only the 100-character `src` prefix
  (src/render.ts:151, 218). The detector type, the width limit and the ratio
  are not part of it, so changing them re-extracts and re-aligns nothing.
  `ConfigChangeRecomputesNothing` states this.
- A non-baseline fingerprint is written before matching starts
  (src/render.ts:221), so an image whose estimate is rejected is not retried.
  `RejectionKeepsTextureButRecordsKey` states this.
- Replacing the baseline re-extracts it but does not re-align the other
  images, because their fingerprints still match. `NewBaselineDoesNotRealign`
  states this.

Two statements of src/render.ts are wrong as written; they are listed under
"## Findings". The rest of the model uses their corrected forms:
`BaselineUpload` writes the baseline into texture 0, and `PackPoints` builds
one matrix row per match. The members this affects are named under
"## Left out".

## Model

| member | source | states |
|---|---|---|
| Dom.Substring0 | src/render.ts:151 | `s.substring(0, n)`: it is a prefix of `s` whose length is the smaller of `n` and the length of `s` |
| Matching.Fingerprint | src/render.ts:151 | the cache fingerprint is the prefix of `src` of length `Min(len, 100)`: its first 100 characters, or all of it when shorter |
| Matching.DetectionWidth | src/render.ts:156 | the detection width is at most the natural width (no upscaling) and at most the limit, and equals one of them |
| Matching.KeptIndicesExact | src/render.ts:230-237 | the kept kNN positions are strictly increasing and in range, and a position is kept exactly when its best distance is at most `ratio` times its second-best distance |
| Matching.GoodOfIsKeptBest | src/render.ts:230-237 | `good_matches` is the best candidate of each kept position, in order: an order-preserving subsequence of the best matches |
| Matching.GoodOfInRange | src/render.ts:228-237 | every kept match's `queryIdx` addresses a baseline keypoint and its `trainIdx` a target keypoint |
| Matching.GoodMatches | src/render.ts:230-237 | the filtering loop produces exactly the ratio-filtered subsequence |
| Matching.CoordsAt | src/render.ts:243-250 | a point list has two entries per match: entries 2k and 2k+1 are the x and y of the k-th addressed keypoint |
| Matching.PointLists | src/render.ts:243-250 | `points1` holds the baseline positions (through `queryIdx`) and `points2` the target positions (through `trainIdx`); the two lists have equal length, twice the number of matches |
| Matching.AsWrittenMatrixHasUnwrittenRows | src/render.ts:252-255 | as written, m matches give a 2m-row matrix: the m correspondences, then m rows that nothing wrote |
| Matching.PackedRowsAreKeypoints | src/render.ts:252-257 | corrected, the matrix has one row per match, and each row is the addressed keypoint's position |
| Matching.CorrespondencesArePaired | src/render.ts:243-257 | row k of the two matrices holds the target and baseline positions of the same k-th kept match |
| Matching.GateIgnoresOtherElements | src/render.ts:259 | the validity gate reads only element 0: an accepted estimate stays accepted whatever is written into another element |
| Matching.GateAcceptsNaNOutsideElement0 | src/render.ts:259 | a non-empty estimate with a NaN in element 4 passes the gate |
| Matching.EstimateHomography | src/render.ts:225-257 | matching, ratio filtering and building the point lists, then `findHomography` from the target matrix to the baseline matrix (in their corrected one-row-per-match form), yield the estimate `Alignment` defines |
| Render.WriteAt | src/render.ts:189-190 | JavaScript `a[i] = v` at `i <= a.length`: slot `i` holds `v`, the others are unchanged, and the length grows only when `i` was past the end |
| Render.BaselineUpload | src/render.ts:204-206 | the corrected baseline upload replaces texture 0 with the unwarped baseline and leaves every other texture alone |
| Render.BaselineUploadAsWritten | src/render.ts:204-206 | as written, the upload replaces the texture bound at that moment, whichever it is, and changes nothing when no image texture is bound |
| Render.ExtractAt | src/render.ts:151-213 | one step of pass 1 keeps the slots consistent and makes the feature slots reach index `i` |
| Render.Extracted | src/render.ts:150-214 | after pass 1 the slots are consistent, one feature slot exists per image, and the baseline is cached |
| Render.AlignAt | src/render.ts:217-292 | one step of pass 2 changes only fingerprints and textures, and makes the fingerprints reach index `i` |
| Render.Aligned | src/render.ts:216-293 | pass 2 changes only fingerprints and textures, and extends the fingerprints to the image count |
| Render.Updated | src/render.ts:148-298 | after `updateImages` the slots are consistent and one feature slot exists per image |
| Render.Renderer.constructor | src/render.ts:7-42 | the field defaults: brush 2, AKAZE, width limit 800, nothing selected (-1), ratio 0.7, no debug canvas, all lists empty |
| Render.Renderer.UpdateImages | src/render.ts:148-298 | the new per-index state is `Updated` of the old one, and the native calls made are `UpdateLog` |
| Render.Renderer.ExtractFeatures | src/render.ts:150-214 | the loop of pass 1 computes `Extracted` over all images, with its log |
| Render.Renderer.RefreshFeatures | src/render.ts:151-213 | one iteration of pass 1 computes `ExtractAt`: decode when stale or debugging; when stale, detect, release the old slots, store the new ones, create a missing texture, and upload and fingerprint the baseline |
| Render.Renderer.AlignImages | src/render.ts:216-293 | the loop of pass 2 computes `Aligned` over indices 1 to n-1, with its log |
| Render.Renderer.AlignImage | src/render.ts:217-292 | one iteration of pass 2: a cached image is skipped; otherwise the fingerprint is recorded, and the image is matched and then warped or reported according to the gate |
| Render.Renderer.Render | src/render.ts:309-335 | with `selected == -1` every texture index is drawn once, in ascending order; otherwise only `selected` is drawn |
| RenderProps.ExtractedCacheSrcs | src/render.ts:208-210 | pass 1 writes only the baseline's fingerprint, and only when it is stale |
| RenderProps.ExtractKeepsOtherKeys | src/render.ts:208-210 | pass 1 does not change whether a non-baseline image is cached |
| RenderProps.ExtractSeesOriginalKey | src/render.ts:151 | when pass 1 reaches index `i`, it sees the cache status and slot existence that index had before the call |
| RenderProps.ExtractedSlot | src/render.ts:170-206 | after pass 1 a feature slot holds the detector's output exactly when its image was stale; a texture is the unwarped baseline, the old texture, or blank when just created |
| RenderProps.ExtractEffectsAt | src/render.ts:153-188 | one step of pass 1 decodes when stale or debugging; when stale it detects and releases exactly the slots that existed |
| RenderProps.ExtractLogKind | src/render.ts:150-214 | every native call of pass 1 is a pass-1 call on an index already visited |
| RenderProps.ExtractLogMissing | src/render.ts:150-214 | pass 1 makes no call on an index it has not reached |
| RenderProps.ExtractLogAt | src/render.ts:150-214 | for image `j`, pass 1 detects and releases exactly when `j` was stale, and decodes also when debugging |
| RenderProps.AlignedKey | src/render.ts:218-222 | after pass 2 every visited index holds its current fingerprint; the others are unchanged |
| RenderProps.AlignSeesOriginalKey | src/render.ts:218 | when pass 2 reaches index `i`, it sees the cache status that index had when the pass began |
| RenderProps.AlignedTexture | src/render.ts:259-274 | after pass 2 a texture is warped exactly when its image was stale and its estimate passed the gate; otherwise it is unchanged |
| RenderProps.AlignEffectsAt | src/render.ts:218-274 | one step of pass 2: a stale image is matched, then either warped or reported according to the gate |
| RenderProps.AlignLogKind | src/render.ts:216-293 | every native call of pass 2 is a pass-2 call on an index in [1, k) |
| RenderProps.AlignLogMissing | src/render.ts:216-293 | pass 2 makes no call on an index it has not reached |
| RenderProps.AlignLogAt | src/render.ts:216-293 | for image `j`, pass 2 matches exactly when `j` was stale, then warps or reports according to the gate |
| RenderProps.UpdateFingerprintsImage | src/render.ts:208-222 | after `updateImages` image `j` carries its current fingerprint |
| RenderProps.UpdateFingerprintsEveryImage | src/render.ts:148-298 | after `updateImages` every image is cached, and fingerprints past the image list are untouched |
| RenderProps.UpdateReplacesOnlyStaleFeatures | src/render.ts:170-190 | `updateImages` replaces the features of exactly the stale images with the detector's output, and leaves every other slot as it was |
| RenderProps.UpdateTexture | src/render.ts:192-206 | after `updateImages` texture `j` is: the unwarped baseline if the baseline was stale; the warped image if `j` was stale and its estimate passed the gate; otherwise the old texture, or blank if new |
| RenderProps.UpdateLogPhases | src/render.ts:150-293 | every pass-1 call precedes every pass-2 call, and pass 2 never touches the baseline |
| RenderProps.UpdateDetectsExactlyStale | src/render.ts:170-188 | `updateImages` detects features for image `j`, and releases its old slots, exactly when `j` was stale |
| RenderProps.UpdateAlignsExactlyStale | src/render.ts:216-274 | `updateImages` matches image `j > 0` exactly when it was stale, then warps or reports according to the gate |
| RenderProps.RejectionKeepsTextureButRecordsKey | src/render.ts:259-261 | a rejected estimate keeps the old texture but still records the fingerprint, reports the failure and warps nothing |
| RenderProps.SettledExtractIsIdentity | src/render.ts:151-153 | pass 1 on a fully cached state changes nothing and at most decodes (only with a debug canvas) |
| RenderProps.SettledAlignIsIdentity | src/render.ts:218-219 | pass 2 on a fully cached state changes nothing and calls nothing |
| RenderProps.UpdateIsIdempotent | src/render.ts:148-298 | a second `updateImages` on the same images changes nothing, and calls nothing except the debug-canvas decoding |
| RenderProps.ConfigChangeRecomputesNothing | src/render.ts:148-222 | after `updateImages`, a second call with the same images under any other configuration changes nothing and calls nothing except the debug-canvas decoding |
| RenderProps.NewBaselineDoesNotRealign | src/render.ts:208-222 | replacing the baseline of a settled state re-detects and re-uploads only the baseline; the other images are neither re-matched nor re-warped |
| RenderProps.AsWrittenUploadMissesTexture0 | src/render.ts:204-206 | after aligning two images and removing the baseline, the as-written upload overwrites texture 1 and leaves the removed image in texture 0; the corrected upload replaces texture 0 |
| Store.Store.constructor | src/state.ts:11-27 | the store defaults: no images, brush 2, image 0 selected, result None, AKAZE, foreground brush on, eraser off, knn 0.7, width limit 800, 200 features |
| Store.Store.AddImage | src/state.ts:29-34 | the new list is the old one with an image carrying the given `src` and `name` appended |
| Store.Store.RemoveImage | src/state.ts:36-39 | requires the index in range; the new list is the old one without exactly that element, in order |
| Store.WithoutIndex | src/state.ts:38 | the position filter drops one element for an index in range and none otherwise |
| Store.WithoutIndexRemovesOne | src/state.ts:38 | for an index in range the filter equals the list before it followed by the list after it |
| Store.WithoutIndexKeepsAll | src/state.ts:38 | for an index out of range the filter returns the list unchanged |
| Store.Decimal | src/state.ts:16 | `i.toString()` is a non-empty string of digits, with a leading zero only for 0 |
| Store.DecimalRoundTrip | src/state.ts:16 | parsing the decimal form of `n` gives `n` back |
| Store.DecimalInjective | src/state.ts:16 | distinct indices have distinct decimal forms |
| Store.Colors | src/state.ts:16 | there is one colour per image |
| Store.ColorsAt | src/state.ts:16 | colour `i` is the hash of the first 50 characters of `src[i]` followed by the decimal form of `i` |
| Store.ColorsAfterAdd | src/state.ts:16 | adding an image keeps every existing colour and appends one |
| Store.ColorsAfterRemove | src/state.ts:16 | removing an image keeps the colours before it; the images after it move down one position and their colours are recomputed from the new position |
| Store.ColorKeysDistinct | src/state.ts:16 | when both `src`s have at least 50 characters, images at different positions hash different strings |
| Store.ShortSrcKeysCollide | src/state.ts:16 | without that length keys can coincide: `"a1"` at position 1 and `"a"` at position 11 |

## Left out

- EstimateHomography (Matching.EstimateHomography): passes the corrected
  one-row-per-match matrices (`PackPoints`) to `findHomography`.
  src/render.ts:252-255 passes 2m-row matrices whose last m rows nothing
  wrote; `AsWrittenMatrixHasUnwrittenRows` states that form. `findHomography`
  is opaque, so the model says nothing about how the extra rows change the
  estimate.
- ExtractAt (Render.ExtractAt): a stale baseline is uploaded into texture 0
  (`BaselineUpload`). As written, src/render.ts:205 uploads into whichever
  texture is bound (`BaselineUploadAsWritten`). The model keeps no record of
  the bound texture.
- ExtractFeatures (Render.Renderer.ExtractFeatures): is proved equal to
  `Extracted`, a fold of `ExtractAt`, so it shares the corrected baseline
  upload into texture 0.
- RefreshFeatures (Render.Renderer.RefreshFeatures): computes `ExtractAt`, so
  it puts a stale baseline into texture 0, not into the bound texture as
  src/render.ts:205 does.
- UpdateImages (Render.Renderer.UpdateImages): is proved equal to `Updated`,
  which is built from `ExtractAt` and `EstimateHomography`, so it shares their
  corrected upload and corrected point matrices.
- ExtractedSlot (RenderProps.ExtractedSlot): its texture clause assumes the
  corrected upload into texture 0. As written, a texture other than 0 can
  receive the baseline when texture 0 already exists.
- UpdateTexture (RenderProps.UpdateTexture): its baseline clause assumes the
  corrected upload into texture 0. As written, the bound texture receives it.
- RejectionKeepsTextureButRecordsKey (RenderProps.RejectionKeepsTextureButRecordsKey):
  "keeps the old texture" assumes the corrected upload. As written, a
  misdirected baseline upload in pass 1 can overwrite texture `j`.
- NewBaselineDoesNotRealign (RenderProps.NewBaselineDoesNotRealign): "the
  other textures are unchanged" assumes the corrected upload. As written, the
  texture bound by the last warp or draw receives the new baseline
  (`AsWrittenUploadMissesTexture0`).

- The WebGL layer is not modelled: shaders, buffers, `clear`, `checkError`,
  and texture parameters. A texture is only its content (`Texture`). Which
  texture is bound appears only in `BaselineUploadAsWritten`.
- OpenCV is not modelled. Detection, kNN matching and `findHomography` are
  opaque functions in `Library`, and RANSAC and the warp itself are not
  modelled.
- Sound (Vision.Library.Sound): assumes each kNN entry has two candidates. A target
  with fewer than two descriptors makes `match.get(1)` undefined, and
  src/render.ts:234 throws. The model does not capture that exception.
- Floating point is not modelled. Distances and coordinates are reals. The
  float32 rounding of `data32F.set` and the detection-frame height
  `naturalHeight * (width / naturalWidth)` (src/render.ts:158) are not
  modelled; a `Frame` carries only the width.
- The detection-to-native scale is not modelled. `scale0` and `scale1` are
  computed but unused (src/render.ts:240-241), so the estimate made at
  detection scale is applied to the native image. The warp's geometry is
  opaque here, so the model neither shows nor repairs this.
- Native object lifetimes are recorded only as the `ReleaseKeypoints` and
  `ReleaseDescriptors` effects. The other temporaries' `delete()` calls are
  not modelled.
- Debug output is left out: `drawKeypoints`, `imshow`, `drawMatches`, the
  `debug` array and `console.log`. A debug canvas only causes the `Decode`
  effect.
- The alert at src/render.ts:260 is the `AlignFailed` effect.
- Exceptions thrown by the library or by WebGL mid-pass are not modelled.
  Each pass is treated as completing.
- Render (Render.Renderer.Render): the model records only which texture indices are
  drawn. A `selected` outside the texture list makes the source bind
  `undefined`; the model still reports that index as drawn.
- Render.Renderer.constructor: models only the field initialisers, not the
  WebGL set-up of src/render.ts:69-146.
- The painting state (`stencilTextures`, `strokeTextures`), segmentation, and
  src/persistence.ts are not part of this model.
- Vue reactivity and Pinia are not modelled. `colors` is recomputed as a
  function of the list, and the store's list and the renderer's list are not
  linked.
- The string-to-colour hash is a parameter.
- RemoveImage (Store.Store.RemoveImage): `images[index].remove()` detaches a DOM element.
  That has no effect on the list and is not modelled.
- AddImage (Store.Store.AddImage): the decoded size of the new image is passed in. The
  browser decodes it asynchronously from the data URL.

## Findings

| source | as written | input that shows it | evidently intended | confidence | as-written member | corrected member |
|---|---|---|---|---|---|---|
| src/render.ts:252-255 | `new cv.Mat(points1.length, 1, cv.CV_32FC2)` allocates one two-channel row per coordinate, so m matches give 2m rows; `data32F.set` fills only the first m | any alignment with m ≥ 1 kept matches: rows m to 2m-1 are never written and reach `findHomography` as points | one row per match: `new cv.Mat(points1.length / 2, 1, cv.CV_32FC2)` | high; not executed | Matching.AsWrittenMatrixHasUnwrittenRows | Matching.PackedRowsAreKeypoints |
| src/render.ts:204-206 | the baseline `texImage2D` binds nothing, so when texture 0 already exists the upload goes to whichever texture was bound last (textures are bound only at src/render.ts:195, 271 and 340) | align and draw images [A, B], so texture 1 is bound last; remove A, so B is the new stale baseline: B is uploaded into texture 1 and texture 0 still shows A | bind texture 0 before the upload | medium; not executed | RenderProps.AsWrittenUploadMissesTexture0 | Render.BaselineUpload |
