/** The research inference script (src/rd/inference.py): the autoencoder's
    L input and ab output are stacked into one LAB image, the dataset's
    normalisation is undone channel by channel, and the colourised image is
    resized back to the size of the input file.  Reading the model, the
    LAB-to-RGB conversion and the image files are not modelled. */
module RdInference {
  import opened Wrappers
  import opened Colour
  import opened Datasets

  /** `x * 100` on the L channel: the lightness that `NormaliseL` maps to
      `x`. */
  function DenormaliseL(x: real): (l: real)
    ensures NormaliseL(l) == x
  {
    x * 100.0
  }

  /** `x * 255 - 128` on the a and b channels: the value that `NormaliseAB`
      maps to `x`. */
  function DenormaliseAB(x: real): (a: real)
    ensures NormaliseAB(a) == x
  {
    x * 255.0 - 128.0
  }

  /** The LAB image `to_rgb` hands to the colour conversion: the planes
      stacked L first, each channel denormalised. */
  function DenormalisedImage(gray: Plane, a: Plane, b: Plane): (img: seq<Pixel3>)
    requires |gray| == |a| == |b|
    ensures |img| == |gray|
  {
    Interleave(MapPlane(gray, DenormaliseL), MapPlane(a, DenormaliseAB), MapPlane(b, DenormaliseAB))
  }

  /** `to_rgb(grayscale_input, ab_input)` up to the LAB-to-RGB conversion:
      the channels are concatenated L first into an H x W x 3 array, then the
      L slice and the ab slice are rewritten in place. */
  method ToRgb(gray: Plane, a: Plane, b: Plane) returns (image: array<Pixel3>)
    requires |gray| == |a| == |b|
    ensures fresh(image)
    ensures image[..] == DenormalisedImage(gray, a, b)
  {
    var stacked := Interleave(gray, a, b);
    image := new Pixel3[|stacked|](k requires 0 <= k < |stacked| => stacked[k]);
    // color_image[:, :, 0:1] * 100
    var k := 0;
    while k < image.Length
      invariant 0 <= k <= image.Length
      invariant forall j :: 0 <= j < k ==> image[j] == Pixel3(DenormaliseL(gray[j]), a[j], b[j])
      invariant forall j :: k <= j < image.Length ==> image[j] == stacked[j]
    {
      image[k] := image[k].(c0 := DenormaliseL(image[k].c0));
      k := k + 1;
    }
    // color_image[:, :, 1:3] * 255 - 128
    k := 0;
    while k < image.Length
      invariant 0 <= k <= image.Length
      invariant forall j :: 0 <= j < k ==>
        image[j] == Pixel3(DenormaliseL(gray[j]), DenormaliseAB(a[j]), DenormaliseAB(b[j]))
      invariant forall j :: k <= j < image.Length ==> image[j] == Pixel3(DenormaliseL(gray[j]), a[j], b[j])
    {
      image[k] := image[k].(c1 := DenormaliseAB(image[k].c1), c2 := DenormaliseAB(image[k].c2));
      k := k + 1;
    }
  }

  /** Denormalising a `LABColorDataset` item gives back the LAB image it was
      made from: the inference scaling is the exact inverse of the training
      one. */
  lemma DenormaliseLabItem(lab: seq<Pixel3>)
    ensures var s := LabItem(lab); DenormalisedImage(s.inputL, s.targetA, s.targetB) == lab
  {
    var s := LabItem(lab);
    var img := DenormalisedImage(s.inputL, s.targetA, s.targetB);
    forall k | 0 <= k < |lab| ensures img[k] == lab[k] {
      assert s.inputL[k] == NormaliseL(lab[k].c0);
      assert s.targetA[k] == NormaliseAB(lab[k].c1);
      assert s.targetB[k] == NormaliseAB(lab[k].c2);
    }
  }

  /** The size bookkeeping of the script: `w, h = input_gray.shape[0:2]`
      (rows first, despite the names) and `cv2.resize(colored_image, (h, w))`
      at the end.  Since OpenCV reads the pair as (width, height), the output
      has the rows and columns of the input; a shape with fewer than two
      dimensions fails to unpack. */
  function OutputSize(shape: seq<nat>): (s: Option<Size>)
    ensures s.Some? <==> |shape| >= 2
    ensures s.Some? ==> s.value == Size(shape[0], shape[1])
  {
    if |shape| < 2 then None
    else
      var w, h := shape[0], shape[1];
      Some(Resized((h, w)))
  }
}
