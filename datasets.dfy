/** The two datasets of src/rd/utils.py: which files they collect, which
    file an index selects, what an item is made of, and the LAB
    normalisation of `LABColorDataset`.  Image decoding and the skimage
    colour conversions are not modelled: an item is described by the file it
    comes from, and a LAB item starts from the LAB image `rgb2lab` gives. */
module Datasets {
  import opened Wrappers
  import opened Text
  import opened Colour

  /** One file reported by `os.walk`: the directory it was found in and its
      name. */
  datatype WalkEntry = WalkEntry(root: String, name: String)

  predicate IsJpg(e: WalkEntry)
  {
    EndsWith(e.name, ".jpg")
  }

  /** The comprehension `[join(root, f) for root, _, files in walk(dir) for
      f in files if f.endswith(".jpg")]`, in walk order. */
  function JpgPaths(walk: seq<WalkEntry>): (paths: seq<String>)
    ensures |paths| <= |walk|
    ensures forall k :: 0 <= k < |paths| ==> EndsWith(paths[k], ".jpg")
  {
    if walk == [] then []
    else
      var init, last := walk[..|walk| - 1], walk[|walk| - 1];
      assert walk == init + [last];
      JpgPaths(init) + (if IsJpg(last) then [Join(last.root, last.name)] else [])
  }

  /** The dataset holds exactly the joined paths of the ".jpg" files of the
      walk. */
  lemma {:induction false} JpgPathsMembers(walk: seq<WalkEntry>)
    ensures forall e :: e in walk && IsJpg(e) ==> Join(e.root, e.name) in JpgPaths(walk)
    ensures forall p :: p in JpgPaths(walk) ==>
      exists e :: e in walk && IsJpg(e) && p == Join(e.root, e.name)
  {
    if walk != [] {
      var init, last := walk[..|walk| - 1], walk[|walk| - 1];
      assert walk == init + [last];
      JpgPathsMembers(init);
    }
  }

  /** The positions of the walk that hold a ".jpg" file. */
  function JpgPositions(walk: seq<WalkEntry>): set<nat>
  {
    set i: nat | i < |walk| && IsJpg(walk[i])
  }

  /** One path per ".jpg" file: the dataset length is the number of ".jpg"
      files found. */
  lemma {:induction false} JpgPathsCount(walk: seq<WalkEntry>)
    ensures |JpgPaths(walk)| == |JpgPositions(walk)|
  {
    if walk != [] {
      var n := |walk| - 1;
      var init := walk[..n];
      JpgPathsCount(init);
      assert forall i :: 0 <= i < n ==> init[i] == walk[i];
      var before, now := JpgPositions(init), JpgPositions(walk);
      assert forall i :: i in now <==> i in before || (i == n && IsJpg(walk[n]));
      if IsJpg(walk[n]) {
        assert now == before + {n};
      } else {
        assert now == before;
      }
    }
  }

  // ---------------------------------------------------------------------
  // Pix2pixDataset

  datatype Pix2pixDataset = Pix2pixDataset(imagePaths: seq<String>)

  /** `Pix2pixDataset(root_dir)`, given the walk of `root_dir`. */
  function NewPix2pixDataset(walk: seq<WalkEntry>): (ds: Pix2pixDataset)
    ensures |ds.imagePaths| == |JpgPositions(walk)|
  {
    JpgPathsCount(walk);
    Pix2pixDataset(JpgPaths(walk))
  }

  datatype DatasetError = DivisionByZero | IndexOutOfRange

  /** What an item is made of: the grayscale version of a photo stacked to
      three identical channels, or the colour photo itself. */
  datatype Picture = GrayStack(path: String) | Rgb(path: String)

  /** An item: the model input first, the target second. */
  datatype Sample = Sample(input: Picture, target: Picture)

  /** `__getitem__(index)`: the path at `index % len(image_paths)` (Python's
      `%`, which for a positive divisor agrees with Dafny's), returned as
      (grayscale, colour).  An empty dataset fails with a division by zero. */
  function Pix2pixItem(ds: Pix2pixDataset, index: int): (r: Result<Sample, DatasetError>)
    ensures r.Ok? <==> ds.imagePaths != []
    ensures r.Err? ==> r.error == DivisionByZero
    ensures r.Ok? ==> r.value.input.GrayStack? && r.value.target.Rgb? &&
                      r.value.input.path == r.value.target.path &&
                      r.value.target.path in ds.imagePaths
  {
    var n := |ds.imagePaths|;
    if n == 0 then Err(DivisionByZero)
    else
      var p := ds.imagePaths[index % n];
      Ok(Sample(GrayStack(p), Rgb(p)))
  }

  /** Indices inside the dataset select their own path... */
  lemma Pix2pixItemInRange(ds: Pix2pixDataset, index: int)
    requires 0 <= index < |ds.imagePaths|
    ensures Pix2pixItem(ds, index) == Ok(Sample(GrayStack(ds.imagePaths[index]), Rgb(ds.imagePaths[index])))
  {
  }

  /** ...and every other index wraps around: the item depends only on the
      index modulo the dataset length, so no index is out of range. */
  lemma Pix2pixItemWraps(ds: Pix2pixDataset, index: int)
    requires ds.imagePaths != []
    ensures Pix2pixItem(ds, index) == Pix2pixItem(ds, index % |ds.imagePaths|)
  {
  }

  // ---------------------------------------------------------------------
  // LABColorDataset

  datatype LabColorDataset = LabColorDataset(rootDir: String, imagePaths: seq<String>)

  /** `LABColorDataset(root_dir)`, given the walk of `root_dir`. */
  function NewLabColorDataset(rootDir: String, walk: seq<WalkEntry>): (ds: LabColorDataset)
    ensures ds.rootDir == rootDir
    ensures |ds.imagePaths| == |JpgPositions(walk)|
  {
    JpgPathsCount(walk);
    LabColorDataset(rootDir, JpgPaths(walk))
  }

  /** `image_paths[index]` with Python's indexing: negative indices count
      from the end, anything else outside the list fails. */
  function LabItemPath(ds: LabColorDataset, index: int): (r: Result<String, DatasetError>)
    ensures r.Ok? <==> -|ds.imagePaths| <= index < |ds.imagePaths|
    ensures r.Err? ==> r.error == IndexOutOfRange
    ensures 0 <= index < |ds.imagePaths| ==> r == Ok(ds.imagePaths[index])
    ensures -|ds.imagePaths| <= index < 0 ==> r == Ok(ds.imagePaths[|ds.imagePaths| + index])
  {
    var n := |ds.imagePaths|;
    if 0 <= index < n then Ok(ds.imagePaths[index])
    else if -n <= index < 0 then Ok(ds.imagePaths[n + index])
    else Err(IndexOutOfRange)
  }

  /** `L / 100`: lightness in [0, 100] lands in [0, 1]. */
  function NormaliseL(l: real): (x: real)
    ensures 0.0 <= l <= 100.0 <==> 0.0 <= x <= 1.0
    ensures l == 100.0 * x
  {
    l / 100.0
  }

  /** `(a + 128) / 255` for each of the a and b channels: values in
      [-128, 127] land in [0, 1]. */
  function NormaliseAB(a: real): (x: real)
    ensures -128.0 <= a <= 127.0 <==> 0.0 <= x <= 1.0
    ensures a == 255.0 * x - 128.0
  {
    (a + 128.0) / 255.0
  }

  /** An item of `LABColorDataset`: the normalised L plane as input and the
      normalised a and b planes as target. */
  datatype LabSample = LabSample(inputL: Plane, targetA: Plane, targetB: Plane)

  predicate InLabGamut(img: seq<Pixel3>)
  {
    forall k :: 0 <= k < |img| ==>
      0.0 <= img[k].c0 <= 100.0 && -128.0 <= img[k].c1 <= 127.0 && -128.0 <= img[k].c2 <= 127.0
  }

  predicate InUnitRange(p: Plane)
  {
    forall k :: 0 <= k < |p| ==> 0.0 <= p[k] <= 1.0
  }

  /** The normalisation of `__getitem__` applied to the LAB image of the
      file: every plane has one value per pixel, and an image inside the
      LAB ranges gives planes inside [0, 1]. */
  function LabItem(lab: seq<Pixel3>): (s: LabSample)
    ensures |s.inputL| == |s.targetA| == |s.targetB| == |lab|
    ensures InLabGamut(lab) ==> InUnitRange(s.inputL) && InUnitRange(s.targetA) && InUnitRange(s.targetB)
  {
    LabSample(MapPlane(Channel(lab, 0), NormaliseL),
              MapPlane(Channel(lab, 1), NormaliseAB),
              MapPlane(Channel(lab, 2), NormaliseAB))
  }
}
