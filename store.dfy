// The application store (src/state.ts): the image list, the editor
// settings and their defaults, and the per-image colours. `addImage` and
// `removeImage` replace the whole list, so they are methods that reassign
// the `images` field; the colours are a pure map over the list.
module Store {
  import opened Dom
  import opened Vision

  /** Which result view is shown (src/state.ts:6-8). */
  datatype ResultType = Split | Full | None

  /** The detector settings the user edits (src/state.ts:21-25). */
  datatype DetectorOptions = DetectorOptions(knnDistance: real, widthLimit: int, maxFeatures: int)

  class Store {
    var images: seq<Image>
    var brushSize: int
    var selectedImage: int
    var selectedResult: ResultType
    var selectedDetector: DetectorType
    var brushForeground: bool
    var eraser: bool
    var computing: bool
    var detectorOptions: DetectorOptions
    var initialized: bool

    /** A fresh store holds no images and the default settings. */
    constructor ()
      ensures images == []
      ensures brushSize == 2 && selectedImage == 0
      ensures selectedResult == None && selectedDetector == AKAZE
      ensures brushForeground && !eraser && !computing && !initialized
      ensures detectorOptions == DetectorOptions(0.7, 800, 200)
    {
      images := [];
      brushSize := 2;
      selectedImage := 0;
      selectedResult := None;
      selectedDetector := AKAZE;
      brushForeground := true;
      eraser := false;
      computing := false;
      detectorOptions := DetectorOptions(0.7, 800, 200);
      initialized := false;
    }

    /** Appends an image made from `dataURL` and `name`. The browser decodes
        its natural size from the data URL; here that size is a parameter. */
    method AddImage(dataURL: string, name: string, naturalWidth: nat, naturalHeight: nat)
      modifies this`images
      ensures images == old(images) + [Image(dataURL, name, naturalWidth, naturalHeight)]
      ensures |images| == |old(images)| + 1
      ensures images[..|old(images)|] == old(images)
    {
      images := images + [Image(dataURL, name, naturalWidth, naturalHeight)];
    }

    /** Removes the image at `index`, keeping the others in order. The source
        calls `remove()` on `images[index]` first, which throws unless the
        index is in range. */
    method RemoveImage(index: int)
      requires 0 <= index < |images|
      modifies this`images
      ensures images == old(images)[..index] + old(images)[index + 1..]
      ensures |images| == |old(images)| - 1
    {
      WithoutIndexRemovesOne(images, index);
      images := WithoutIndex(images, index);
    }
  }

  // ---------------------------------------------------------------------
  // The filter of removeImage

  /** `s.filter((_, i) => i !== index)`: the elements of `s` whose position
      differs from `index`, in order. */
  function WithoutIndex<T>(s: seq<T>, index: int): (r: seq<T>)
    ensures |r| == if 0 <= index < |s| then |s| - 1 else |s|
  {
    if |s| == 0 then []
    else WithoutIndex(s[..|s| - 1], index) + (if index == |s| - 1 then [] else [s[|s| - 1]])
  }

  /** For an index in range the filter removes exactly that element; the
      elements before it keep their positions and the ones after it move
      down by one. */
  lemma {:induction false} WithoutIndexRemovesOne<T>(s: seq<T>, index: int)
    requires 0 <= index < |s|
    ensures WithoutIndex(s, index) == s[..index] + s[index + 1..]
  {
    var last := |s| - 1;
    var init := s[..last];
    if index == last {
      assert s[index + 1..] == [];
      WithoutIndexKeepsAll(init, index);
    } else {
      WithoutIndexRemovesOne(init, index);
      assert init[..index] == s[..index];
      assert init[index + 1..] + [s[last]] == s[index + 1..];
    }
  }

  /** An index outside `s` removes nothing. */
  lemma {:induction false} WithoutIndexKeepsAll<T>(s: seq<T>, index: int)
    requires index < 0 || |s| <= index
    ensures WithoutIndex(s, index) == s
  {
    if |s| > 0 {
      var last := |s| - 1;
      WithoutIndexKeepsAll(s[..last], index);
      assert s[..last] + [s[last]] == s;
    }
  }

  // ---------------------------------------------------------------------
  // Number.prototype.toString() on a non-negative integer

  function DigitChar(d: nat): (c: char)
    requires d < 10
    ensures '0' <= c <= '9'
  {
    "0123456789"[d]
  }

  function DigitValue(c: char): nat
    requires '0' <= c <= '9'
  {
    c as nat - '0' as nat
  }

  predicate AllDigits(s: string)
  {
    forall k :: 0 <= k < |s| ==> '0' <= s[k] <= '9'
  }

  /** The decimal form of `n`: digits only, no leading zero. */
  function Decimal(n: nat): (r: string)
    ensures 1 <= |r| && AllDigits(r)
    ensures r[0] == '0' <==> n == 0
  {
    if n < 10 then [DigitChar(n)]
    else Decimal(n / 10) + [DigitChar(n % 10)]
  }

  /** Reads a string of decimal digits back as a number. */
  function ParseDecimal(s: string): nat
    requires AllDigits(s)
  {
    if |s| == 0 then 0
    else ParseDecimal(s[..|s| - 1]) * 10 + DigitValue(s[|s| - 1])
  }

  /** Reading the decimal form of `n` gives `n` back. */
  lemma {:induction false} DecimalRoundTrip(n: nat)
    ensures ParseDecimal(Decimal(n)) == n
  {
    if n >= 10 {
      var init := Decimal(n / 10);
      var r := Decimal(n);
      assert r[..|r| - 1] == init;
      DecimalRoundTrip(n / 10);
    }
  }

  /** Distinct numbers have distinct decimal forms. */
  lemma DecimalInjective(m: nat, n: nat)
    requires Decimal(m) == Decimal(n)
    ensures m == n
  {
    DecimalRoundTrip(m);
    DecimalRoundTrip(n);
  }

  // ---------------------------------------------------------------------
  // The colours

  /** The string the colour of image `i` is derived from: the first 50
      characters of its `src`, followed by the decimal form of `i`. */
  function ColorKey(src: string, i: nat): string
  {
    Substring0(src, 50) + Decimal(i)
  }

  /** `images.map((img, i) => stc(...))`, with the string-to-colour hash as
      the parameter `stc`. */
  function Colors(images: seq<Image>, stc: string -> string): (r: seq<string>)
    ensures |r| == |images|
  {
    if |images| == 0 then []
    else Colors(images[..|images| - 1], stc) + [stc(ColorKey(images[|images| - 1].src, |images| - 1))]
  }

  /** Colour `i` is the hash of the key of image `i` at position `i`. */
  lemma {:induction false} ColorsAt(images: seq<Image>, stc: string -> string, i: nat)
    requires i < |images|
    ensures Colors(images, stc)[i] == stc(ColorKey(images[i].src, i))
  {
    var last := |images| - 1;
    if i < last {
      ColorsAt(images[..last], stc, i);
    }
  }

  /** Adding an image keeps every existing colour and appends one. */
  lemma ColorsAfterAdd(images: seq<Image>, img: Image, stc: string -> string)
    ensures Colors(images + [img], stc) == Colors(images, stc) + [stc(ColorKey(img.src, |images|))]
  {
    assert (images + [img])[..|images|] == images;
  }

  /** Removing image `index` keeps the colours before it; every image after
      it moves down one position and its colour is recomputed from the new
      position. */
  lemma ColorsAfterRemove(images: seq<Image>, index: nat, stc: string -> string)
    requires index < |images|
    ensures var next := images[..index] + images[index + 1..];
      var r := Colors(next, stc);
      && |r| == |images| - 1
      && (forall j :: 0 <= j < index ==> r[j] == Colors(images, stc)[j])
      && (forall j :: index <= j < |r| ==> r[j] == stc(ColorKey(images[j + 1].src, j)))
  {
    var next := images[..index] + images[index + 1..];
    forall j | 0 <= j < |next|
      ensures Colors(next, stc)[j] == stc(ColorKey(next[j].src, j))
    {
      ColorsAt(next, stc, j);
    }
    forall j | 0 <= j < index
      ensures Colors(images, stc)[j] == stc(ColorKey(images[j].src, j))
    {
      ColorsAt(images, stc, j);
    }
  }

  /** When every `src` has at least 50 characters (the data URL of any real
      image has), images at different positions get different keys. */
  lemma ColorKeysDistinct(a: string, i: nat, b: string, j: nat)
    requires 50 <= |a| && 50 <= |b| && i != j
    ensures ColorKey(a, i) != ColorKey(b, j)
  {
    if ColorKey(a, i) == ColorKey(b, j) {
      assert Decimal(i) == ColorKey(a, i)[50..];
      DecimalInjective(i, j);
    }
  }

  /** Without that length, keys can coincide: a `src` of "a1" at position 1
      and a `src` of "a" at position 11 both give "a11". */
  lemma ShortSrcKeysCollide()
    ensures ColorKey("a1", 1) == ColorKey("a", 11)
  {
    assert Decimal(11) == "11";
  }
}
