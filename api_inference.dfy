/** The inference service of the API (src/api/pixlibs/inference.py): the
    lookup of the latest version of a model among the keys of the model
    bucket, the denormalisation of the autoencoder output, the input range
    check and the shape checks of the Pix2Pix path.  The S3 client, the
    networks, the LAB-to-RGB conversion and the resampling itself are not
    modelled: the bucket listing is a list of keys and images are planes of
    reals with a shape. */
module ApiInference {
  import opened Wrappers
  import opened Text
  import opened Colour
  import opened Datasets
  import RdInference
  import Registry

  /** "_v" cannot overlap itself, so `split("_v")[-1]` is the text after
      its last occurrence. */
  lemma VersionMarkNonOverlapping()
    ensures NonOverlapping("_v")
  {
    assert "_v"[1..] == "v" && "_v"[..1] == "_";
  }

  /** The version a key carries: the text after its last "_v", with every
      ".pth" removed, when that is a non-empty run of digits; `None` for a
      key without "_v" or with anything else there. */
  function KeyVersion(key: String): (v: Option<nat>)
    ensures v.Some? ==> exists i :: (OccursAt(key, "_v", i) && !Occurs(key[i + 2..], "_v") &&
      IsDigits(RemoveAll(key[i + 2..], ".pth")) && v.value == DigitsValue(RemoveAll(key[i + 2..], ".pth")))
  {
    VersionMarkNonOverlapping();
    match AfterLast(key, "_v")
    case None => None
    case Some(last) =>
      var digits := RemoveAll(last, ".pth");
      if IsDigits(digits) then
        var i := |key| - |last| - 2;
        assert key[i..] == "_v" + last;
        assert key[i..i + 2] == "_v" && key[i + 2..] == last;
        assert OccursAt(key, "_v", i) && !Occurs(key[i + 2..], "_v") &&
          IsDigits(RemoveAll(key[i + 2..], ".pth")) && DigitsValue(digits) == DigitsValue(RemoveAll(key[i + 2..], ".pth"));
        Some(DigitsValue(digits))
      else None
  }

  /** Conversely, a key is read at its last "_v": whatever precedes it, the
      version is that of the text after it. */
  lemma KeyVersionOfJoined(prefix: String, last: String)
    requires !Occurs(last, "_v")
    ensures KeyVersion(prefix + "_v" + last) ==
      if IsDigits(RemoveAll(last, ".pth")) then Some(DigitsValue(RemoveAll(last, ".pth"))) else None
  {
    VersionMarkNonOverlapping();
    AfterLastOfJoined(prefix, "_v", last);
  }

  /** A key the listing under `model_name + "/"` returns that names a
      weights file. */
  predicate IsWeightsKey(key: String, modelName: String)
  {
    StartsWith(key, modelName + "/") && EndsWith(key, ".pth")
  }

  /** `model_files` after the listing loop has seen `keys`: the
      (version, key) pairs of the versioned weights files, in listing
      order; `CandidatesMembers` says which pairs these are. */
  function Candidates(keys: seq<String>, modelName: String): (files: seq<(nat, String)>)
    ensures |files| <= |keys|
  {
    if keys == [] then []
    else
      var init, key := Candidates(keys[..|keys| - 1], modelName), keys[|keys| - 1];
      if IsWeightsKey(key, modelName) && KeyVersion(key).Some? then init + [(KeyVersion(key).value, key)]
      else init
  }

  /** A pair is a candidate exactly when its key is listed, names a weights
      file of the model, and carries the pair's version. */
  lemma {:induction false} CandidatesMembers(keys: seq<String>, modelName: String)
    ensures forall p :: p in Candidates(keys, modelName) <==>
      p.1 in keys && IsWeightsKey(p.1, modelName) && KeyVersion(p.1) == Some(p.0)
  {
    if keys != [] {
      var init := keys[..|keys| - 1];
      CandidatesMembers(init, modelName);
      assert keys == init + [keys[|keys| - 1]];
    }
  }

  /** Entry `i` has the largest version and no earlier entry has it:
      the entry `max(model_files, key=lambda x: x[0])` returns. */
  predicate LatestAt(files: seq<(nat, String)>, i: int)
  {
    0 <= i < |files| &&
    (forall j :: 0 <= j < |files| ==> files[j].0 <= files[i].0) &&
    (forall j :: 0 <= j < i ==> files[j].0 < files[i].0)
  }

  datatype LookupError = NoVersionFound(modelName: String)

  /** `get_latest_model_uri`: the key of the latest versioned weights file
      of the model, the first listed one among equal versions; the error
      when there is none, which the function re-raises to its caller. */
  method GetLatestModelKey(bucketKeys: seq<String>, modelName: String) returns (r: Result<String, LookupError>)
    ensures r.Err? <==> Candidates(bucketKeys, modelName) == []
    ensures r.Err? ==> r.error == NoVersionFound(modelName)
    ensures r.Ok? ==> exists i :: LatestAt(Candidates(bucketKeys, modelName), i) &&
                                  r.value == Candidates(bucketKeys, modelName)[i].1
  {
    var modelFiles: seq<(nat, String)> := [];
    var k := 0;
    while k < |bucketKeys|
      invariant 0 <= k <= |bucketKeys|
      invariant modelFiles == Candidates(bucketKeys[..k], modelName)
    {
      var key := bucketKeys[k];
      if IsWeightsKey(key, modelName) {
        VersionMarkNonOverlapping();
        var parts := AfterLast(key, "_v");
        if parts.Some? && IsDigits(RemoveAll(parts.value, ".pth")) {
          var version := DigitsValue(RemoveAll(parts.value, ".pth"));
          modelFiles := modelFiles + [(version, key)];
        }
      }
      assert bucketKeys[..k + 1][..k] == bucketKeys[..k];
      k := k + 1;
    }
    assert bucketKeys[..|bucketKeys|] == bucketKeys;
    if modelFiles == [] {
      return Err(NoVersionFound(modelName));
    }
    var latest := 0;
    var i := 1;
    while i < |modelFiles|
      invariant 1 <= i <= |modelFiles| && 0 <= latest < i
      invariant forall j :: 0 <= j < i ==> modelFiles[j].0 <= modelFiles[latest].0
      invariant forall j :: 0 <= j < latest ==> modelFiles[j].0 < modelFiles[latest].0
    {
      if modelFiles[i].0 > modelFiles[latest].0 {
        latest := i;
      }
      i := i + 1;
    }
    r := Ok(modelFiles[latest].1);
  }

  lemma NoUnderscoreNoVersionMark(s: String)
    requires '_' !in s
    ensures !Occurs(s, "_v")
  {
    forall i | 0 <= i <= |s| - 2 ensures !OccursAt(s, "_v", i) {
      assert s[i] != '_';
    }
  }

  /** A key uploaded as `<model>/<stem>_v<N>.pth` is a candidate of version
      N, whatever "_v" the stem itself contains. */
  lemma VersionedKeyFound(modelName: String, stem: String, n: nat)
    ensures var key := modelName + "/" + stem + "_v" + NatToString(n) + ".pth";
      IsWeightsKey(key, modelName) && KeyVersion(key) == Some(n)
  {
    var digits := NatToString(n);
    var key := modelName + "/" + stem + "_v" + digits + ".pth";
    assert key == (modelName + "/") + (stem + "_v" + digits + ".pth");
    assert key == (modelName + "/" + stem) + "_v" + (digits + ".pth");
    assert key[|key| - 4..] == ".pth";
    assert '_' !in digits + ".pth" by {
      forall i | 0 <= i < |digits| ensures digits[i] != '_' {
        assert IsDigit(digits[i]);
      }
    }
    NoUnderscoreNoVersionMark(digits + ".pth");
    KeyVersionOfJoined(modelName + "/" + stem, digits + ".pth");
    RemovePthAfterDigits(digits);
  }

  /** A model the registry uploaded as a single file,
      `<model>_best_model.pth`, is not listed under `<model>/`, so the
      lookup never returns it. */
  lemma SingleFileUploadNotListed(modelName: String)
    ensures !IsWeightsKey(Registry.FileKey(modelName), modelName)
  {
    var key := Registry.FileKey(modelName);
    assert key[|modelName|] == '_';
    assert (modelName + "/")[|modelName|] == '/';
  }

  /** `color_image[:, :, 1:] * 128`: the a and b scaling of the API's
      `to_rgb`, which takes the network output to lie in [-1, 1]. */
  function ApiDenormaliseAB(x: real): (a: real)
    ensures -1.0 <= x <= 1.0 <==> -128.0 <= a <= 128.0
  {
    x * 128.0
  }

  /** `to_rgb` of `infer_autoencoder` up to the LAB-to-RGB conversion: the
      L slice is multiplied by 100 and the ab slice by 128, in place. */
  method ApiToRgb(gray: Plane, a: Plane, b: Plane) returns (image: array<Pixel3>)
    requires |gray| == |a| == |b|
    ensures fresh(image)
    ensures image[..] == Interleave(MapPlane(gray, RdInference.DenormaliseL),
                                    MapPlane(a, ApiDenormaliseAB), MapPlane(b, ApiDenormaliseAB))
  {
    var stacked := Interleave(gray, a, b);
    image := new Pixel3[|stacked|](k requires 0 <= k < |stacked| => stacked[k]);
    var k := 0;
    while k < image.Length
      invariant 0 <= k <= image.Length
      invariant forall j :: 0 <= j < k ==> image[j] == Pixel3(RdInference.DenormaliseL(gray[j]), a[j], b[j])
      invariant forall j :: k <= j < image.Length ==> image[j] == stacked[j]
    {
      image[k] := image[k].(c0 := RdInference.DenormaliseL(image[k].c0));
      k := k + 1;
    }
    k := 0;
    while k < image.Length
      invariant 0 <= k <= image.Length
      invariant forall j :: 0 <= j < k ==>
        image[j] == Pixel3(RdInference.DenormaliseL(gray[j]), ApiDenormaliseAB(a[j]), ApiDenormaliseAB(b[j]))
      invariant forall j :: k <= j < image.Length ==> image[j] == Pixel3(RdInference.DenormaliseL(gray[j]), a[j], b[j])
    {
      image[k] := image[k].(c1 := ApiDenormaliseAB(image[k].c1), c2 := ApiDenormaliseAB(image[k].c2));
      k := k + 1;
    }
  }

  /** The API scaling undoes the training normalisation of a and b at a
      single value only, 16384/127. */
  lemma ApiDenormaliseABRoundTrip(a: real)
    ensures ApiDenormaliseAB(NormaliseAB(a)) == a <==> a == 16384.0 / 127.0
  {
    assert ApiDenormaliseAB(NormaliseAB(a)) == (a + 128.0) * 128.0 / 255.0;
  }

  /** The lowest a value, -128, normalised for training to 0, comes back
      as 0 instead of -128. */
  lemma ApiDenormaliseABCounterexample()
    ensures NormaliseAB(-128.0) == 0.0
    ensures ApiDenormaliseAB(NormaliseAB(-128.0)) == 0.0
    ensures RdInference.DenormaliseAB(NormaliseAB(-128.0)) == -128.0
  {
  }

  /** The errors the inference functions raise: `image.min()` of an empty
      image, `shape[-1]` of a 0-D image, the channel check of
      `infer_pix2pix`, unpacking fewer than two dimensions, `cv2.resize` of
      a float16 array, `torch.cat` of
      mismatched tensors, an input the autoencoder network refuses, and
      `ToPILImage` of an array that is neither 2-D nor 3-D. */
  datatype ImageError =
    | EmptyImage
    | IndexError
    | NotThreeChannels
    | UnpackError
    | ResizeDtype
    | CatMismatch
    | NetworkInput
    | NotPilImage

  /** The image has no element, so `image.min()` raises. */
  predicate NoPixels(shape: seq<nat>)
  {
    0 in shape
  }

  /** `image.min()`. */
  function Min(s: seq<real>): (m: real)
    requires s != []
    ensures m in s && forall k :: 0 <= k < |s| ==> m <= s[k]
  {
    if |s| == 1 then s[0]
    else
      var rest := Min(s[1..]);
      assert forall k :: 1 <= k < |s| ==> s[k] == s[1..][k - 1];
      if s[0] <= rest then s[0] else rest
  }

  /** `image.max()`. */
  function Max(s: seq<real>): (m: real)
    requires s != []
    ensures m in s && forall k :: 0 <= k < |s| ==> s[k] <= m
  {
    if |s| == 1 then s[0]
    else
      var rest := Max(s[1..]);
      assert forall k :: 1 <= k < |s| ==> s[k] == s[1..][k - 1];
      if s[0] >= rest then s[0] else rest
  }

  /** The input check of both inference functions: an image whose values
      are not all in [0, 1] is divided by 255; the minimum of an empty
      image is an error. */
  function NormaliseInput(pixels: Plane): (r: Result<Plane, ImageError>)
    ensures r.Err? <==> pixels == []
    ensures r.Err? ==> r.error == EmptyImage
    ensures r.Ok? && InUnitRange(pixels) ==> r.value == pixels
    ensures r.Ok? && !InUnitRange(pixels) ==>
      |r.value| == |pixels| && forall k :: 0 <= k < |pixels| ==> r.value[k] * 255.0 == pixels[k]
  {
    if pixels == [] then Err(EmptyImage)
    else if 0.0 <= Min(pixels) && Max(pixels) <= 1.0 then Ok(pixels)
    else Ok(MapPlane(pixels, x => x / 255.0))
  }

  /** An 8-bit image (values in [0, 255]) comes out in [0, 1], and checking
      the result again changes nothing. */
  lemma NormaliseInputIdempotent(pixels: Plane)
    requires pixels != [] && forall k :: 0 <= k < |pixels| ==> 0.0 <= pixels[k] <= 255.0
    ensures NormaliseInput(pixels).Ok? && InUnitRange(NormaliseInput(pixels).value)
    ensures NormaliseInput(NormaliseInput(pixels).value) == NormaliseInput(pixels)
  {
    var r := NormaliseInput(pixels).value;
    if !InUnitRange(pixels) {
      forall k | 0 <= k < |r| ensures 0.0 <= r[k] <= 1.0 {
        assert r[k] * 255.0 == pixels[k];
      }
    }
  }

  /** `np.stack([image] * 3, axis=-1)`: a grayscale image becomes three
      identical channels. */
  function GrayToRgb(p: Plane): (img: seq<Pixel3>)
    ensures |img| == |p|
    ensures forall c :: 0 <= c < 3 ==> Channel(img, c) == p
  {
    Interleave(p, p, p)
  }

  /** The shape checks of `infer_pix2pix`, up to
      `original_h, original_w = image.shape[:2]`: an empty image fails the
      range check; a 2-D shape gains a third
      dimension of 3; then the last dimension must be 3 (`shape[-1]` of a
      0-D image is an index error) and there must be two dimensions to
      unpack. */
  function Pix2pixInputSize(shape: seq<nat>): (r: Result<Size, ImageError>)
    ensures r.Ok? <==> !NoPixels(shape) && (|shape| == 2 || (|shape| >= 2 && shape[|shape| - 1] == 3))
    ensures r.Ok? ==> r.value == Size(shape[0], shape[1])
    ensures NoPixels(shape) ==> r == Err(EmptyImage)
    ensures |shape| == 0 ==> r == Err(IndexError)
    ensures !NoPixels(shape) && |shape| >= 1 && |shape| != 2 && shape[|shape| - 1] != 3 ==> r == Err(NotThreeChannels)
    ensures shape == [3] ==> r == Err(UnpackError)
  {
    var s := if |shape| == 2 then shape + [3] else shape;
    if NoPixels(shape) then Err(EmptyImage)
    else if |s| == 0 then Err(IndexError)
    else if s[|s| - 1] != 3 then Err(NotThreeChannels)
    else if |s| < 2 then Err(UnpackError)
    else Ok(Size(s[0], s[1]))
  }

  /** `cv2.resize(output, (original_w, original_h))`: the output of either
      inference function has the rows and columns of the input image. */
  function RestoredSize(original: Size): (s: Size)
    ensures s == original
  {
    Resized((original.cols, original.rows))
  }

  /** The shape the autoencoder network returns, (1, 2, 256, 256). */
  const OutputAbShape: seq<nat> := [1, 2, 256, 256]

  /** `torch.cat((x, y), dim=0)` on tensors of shapes `x` and `y`: they
      must have the same number of dimensions, at least one, and agree
      beyond the first, which the result adds up. */
  function Cat0(x: seq<nat>, y: seq<nat>): (r: Result<seq<nat>, ImageError>)
    ensures r.Ok? <==> |x| == |y| >= 1 && x[1..] == y[1..]
    ensures r.Ok? ==> |r.value| == |x| && r.value[0] == x[0] + y[0] && r.value[1..] == x[1..]
    ensures r.Err? ==> r.error == CatMismatch
  {
    if |x| == |y| >= 1 && x[1..] == y[1..] then Ok([x[0] + y[0]] + x[1..]) else Err(CatMismatch)
  }

  /** `infer_autoencoder` up to the size of its result, with `to_rgb`
      given `input_gray` without its first `depth` dimensions.  `inUnitRange`
      says whether the image passes the range check (`InUnitRange`): one
      that does not is rescaled into a float16 array, which `cv2.resize`
      refuses.  The range check of an empty image fails; fewer than two
      dimensions fail to unpack; `cv2.resize` and the two `unsqueeze(0)`
      turn the image into `[1, 1, 256, 256]` followed by its further
      dimensions, and the network takes only a one-channel 2-D image,
      (1, 1, H, W); then `to_rgb` concatenates the gray slice with
      `output_ab[0]`, and the result is resized back to the input's rows and
      columns. */
  function AutoencoderRun(shape: seq<nat>, inUnitRange: bool, depth: nat): Result<Size, ImageError>
    requires depth <= 2
  {
    if NoPixels(shape) then Err(EmptyImage)
    else if |shape| < 2 then Err(UnpackError)
    else if !inUnitRange then Err(ResizeDtype)
    else
      var inputGray := [1, 1, 256, 256] + shape[2..];
      if |inputGray| != 4 then Err(NetworkInput)
      else
        match Cat0(inputGray[depth..], OutputAbShape[1..])
        case Err(e) => Err(e)
        case Ok(_) => Ok(RestoredSize(Size(shape[0], shape[1])))
  }

  /** `infer_autoencoder` as written passes `input_gray[0, 0]`, of shape
      (256, 256), to `to_rgb` next to `output_ab[0]`, of shape
      (2, 256, 256): `torch.cat` refuses the two, so no image ever comes
      back; an image outside [0, 1] already fails at `cv2.resize`. */
  function AutoencoderOutputSize(shape: seq<nat>, inUnitRange: bool): (r: Result<Size, ImageError>)
    ensures r.Err?
    ensures NoPixels(shape) ==> r.error == EmptyImage
    ensures !NoPixels(shape) && |shape| < 2 ==> r.error == UnpackError
    ensures !NoPixels(shape) && |shape| >= 2 && !inUnitRange ==> r.error == ResizeDtype
    ensures !NoPixels(shape) && |shape| > 2 && inUnitRange ==> r.error == NetworkInput
    ensures !NoPixels(shape) && |shape| == 2 && inUnitRange ==> r.error == CatMismatch
  {
    AutoencoderRun(shape, inUnitRange, 2)
  }

  /** With `input_gray[0]`, of shape (1, 256, 256), as src/rd/inference.py
      passes it, every non-empty grayscale image already in [0, 1] comes
      back at its own rows and columns; the float16 rescaling of other
      images still fails at `cv2.resize`. */
  function AutoencoderOutputSizeFixed(shape: seq<nat>, inUnitRange: bool): (r: Result<Size, ImageError>)
    ensures r.Ok? <==> !NoPixels(shape) && |shape| == 2 && inUnitRange
    ensures r.Ok? ==> r.value == Size(shape[0], shape[1])
    ensures NoPixels(shape) ==> r == Err(EmptyImage)
    ensures !NoPixels(shape) && |shape| < 2 ==> r == Err(UnpackError)
    ensures !NoPixels(shape) && |shape| >= 2 && !inUnitRange ==> r == Err(ResizeDtype)
    ensures !NoPixels(shape) && |shape| > 2 && inUnitRange ==> r == Err(NetworkInput)
  {
    assert Cat0([1, 256, 256], OutputAbShape[1..]).Ok?;
    AutoencoderRun(shape, inUnitRange, 1)
  }

  /** The size bookkeeping of `infer_pix2pix`: after the shape checks,
      `ToPILImage` takes only a 2-D or 3-D array, and the output then has
      the rows and columns of the input. */
  function Pix2pixOutputSize(shape: seq<nat>): (r: Result<Size, ImageError>)
    ensures r.Ok? <==> Pix2pixInputSize(shape).Ok? && |shape| <= 3
    ensures Pix2pixInputSize(shape).Err? ==> r == Pix2pixInputSize(shape)
    ensures Pix2pixInputSize(shape).Ok? && |shape| > 3 ==> r == Err(NotPilImage)
    ensures r.Ok? ==> r.value == Size(shape[0], shape[1])
  {
    match Pix2pixInputSize(shape)
    case Err(e) => Err(e)
    case Ok(original) =>
      var s := if |shape| == 2 then shape + [3] else shape;
      if |s| > 3 then Err(NotPilImage) else Ok(RestoredSize(original))
  }

  /** `transforms.Normalize((0.5, 0.5, 0.5), (0.5, 0.5, 0.5))`: [0, 1] onto
      [-1, 1]. */
  function Standardise(x: real): (y: real)
    ensures 0.0 <= x <= 1.0 <==> -1.0 <= y <= 1.0
  {
    (x - 0.5) / 0.5
  }

  /** `output_image * 0.5 + 0.5`: the generator output back from [-1, 1]
      to [0, 1], the inverse of `Standardise`. */
  function Destandardise(y: real): (x: real)
    ensures Standardise(x) == y
    ensures -1.0 <= y <= 1.0 <==> 0.0 <= x <= 1.0
  {
    y * 0.5 + 0.5
  }
}
