/** Images as the model sees them: a channel is a plane of real values
    listed row by row (`H * W` of them), and a three-channel image in
    height × width × channel layout is the list of its pixels, row by row,
    each pixel holding its three channel values. */
module Colour {

  type Plane = seq<real>

  /** One pixel of a three-channel image: (L, a, b) in LAB, (R, G, B) in
      RGB. */
  datatype Pixel3 = Pixel3(c0: real, c1: real, c2: real)

  /** `np.stack((x, y, z), axis=-1)` and `torch.cat(...)` followed by
      `transpose((1, 2, 0))`: three planes of one size become an image whose
      pixel `k` holds the `k`-th value of each plane, first plane first. */
  function Interleave(x: Plane, y: Plane, z: Plane): (img: seq<Pixel3>)
    requires |x| == |y| == |z|
    ensures |img| == |x|
    ensures forall k :: 0 <= k < |img| ==> img[k] == Pixel3(x[k], y[k], z[k])
  {
    seq(|x|, k requires 0 <= k < |x| => Pixel3(x[k], y[k], z[k]))
  }

  /** `img[:, :, c]`: one channel of an image, as a plane. */
  function Channel(img: seq<Pixel3>, c: nat): (p: Plane)
    requires c < 3
    ensures |p| == |img|
    ensures forall k :: 0 <= k < |p| ==>
      p[k] == if c == 0 then img[k].c0 else if c == 1 then img[k].c1 else img[k].c2
  {
    seq(|img|, k requires 0 <= k < |img| =>
      if c == 0 then img[k].c0 else if c == 1 then img[k].c1 else img[k].c2)
  }

  /** Splitting an image into its channels and interleaving them again gives
      the image back. */
  lemma InterleaveChannels(img: seq<Pixel3>)
    ensures Interleave(Channel(img, 0), Channel(img, 1), Channel(img, 2)) == img
  {
  }

  /** A plane with every value transformed by `f`, as numpy's elementwise
      arithmetic does. */
  function MapPlane(p: Plane, f: real -> real): (q: Plane)
    ensures |q| == |p| && forall k :: 0 <= k < |p| ==> q[k] == f(p[k])
  {
    seq(|p|, k requires 0 <= k < |p| => f(p[k]))
  }

  /** The rows and columns of an image. */
  datatype Size = Size(rows: nat, cols: nat)

  /** `cv2.resize(img, dsize)`: OpenCV reads `dsize` as (width, height), so
      the result has `dsize.1` rows and `dsize.0` columns. */
  function Resized(dsize: (nat, nat)): (s: Size)
    ensures s.cols == dsize.0 && s.rows == dsize.1
  {
    Size(dsize.1, dsize.0)
  }
}
