/** The COCO preparation script (dataset/prepare_mscoco_dataset.py): the
    name of the downloaded archive, the selection of the ".jpg" members of
    the training archive, their split into a training and a validation
    part, and the count of the images in a directory tree.  The download,
    the extraction and the COCO annotations are not modelled; the shuffle
    is an arbitrary permutation given as a parameter. */
module CocoPreparation {
  import opened Text
  import opened Datasets

  /** `BASE_DIR`. */
  const BaseDir: String := "./coco_dataset"

  /** `os.path.join(BASE_DIR, url.split("/")[-1])`: the archive keeps the
      last component of its URL, directly under the base directory. */
  function ZipPath(url: String): (path: String)
    ensures path == BaseDir + "/" + LastField(url, '/')
  {
    var name := LastField(url, '/');
    assert !StartsWith(name, "/") by {
      if |name| > 0 {
        assert name[0] in name;
      }
    }
    Join(BaseDir, name)
  }

  /** An archive URL `<location>/<file>` is saved as
      "./coco_dataset/<file>", as "train2017.zip", "val2017.zip" and
      "annotations_trainval2017.zip" are. */
  lemma ZipPathOfUrl(location: String, file: String)
    requires '/' !in file
    ensures ZipPath(location + "/" + file) == BaseDir + "/" + file
  {
    LastFieldOfJoined(location, '/', file);
  }

  /** What `download` does: the path it returns and whether it fetches the
      archive, which it does only when no file is at that path. */
  datatype Download = Download(zipPath: String, fetched: bool)

  function DownloadArchive(url: String, existing: set<String>): (d: Download)
    ensures d.zipPath == ZipPath(url)
    ensures d.fetched <==> ZipPath(url) !in existing
  {
    var zipPath := ZipPath(url);
    Download(zipPath, zipPath !in existing)
  }

  /** A second `download` of the same URL, once the archive is there,
      fetches nothing and returns the same path. */
  lemma DownloadOnce(url: String, existing: set<String>)
    ensures var first := DownloadArchive(url, existing);
      DownloadArchive(url, existing + {first.zipPath}) == Download(first.zipPath, false)
  {
  }

  /** `[f for f in zip_file.namelist() if f.endswith(".jpg")]`. */
  function JpgNames(names: seq<String>): (files: seq<String>)
    ensures |files| <= |names|
    ensures forall k :: 0 <= k < |files| ==> EndsWith(files[k], ".jpg")
  {
    if names == [] then []
    else
      var init, last := JpgNames(names[..|names| - 1]), names[|names| - 1];
      if EndsWith(last, ".jpg") then init + [last] else init
  }

  /** The filter keeps every ".jpg" member as often as the archive lists
      it, and nothing else. */
  lemma {:induction false} JpgNamesCounts(names: seq<String>)
    ensures forall f :: multiset(JpgNames(names))[f] == if EndsWith(f, ".jpg") then multiset(names)[f] else 0
  {
    if names != [] {
      var init, last := names[..|names| - 1], names[|names| - 1];
      assert names == init + [last];
      JpgNamesCounts(init);
    }
  }

  /** `int(0.2 * len(file_list))`: a fifth of the files, rounded down. */
  function SplitIndex(n: nat): (k: nat)
    ensures 5 * k <= n < 5 * k + 5
  {
    n / 5
  }

  /** The names extracted into the training and the validation directory. */
  datatype Split = Split(train: seq<String>, val: seq<String>)

  /** `split_train_vald` up to the extraction: after the shuffle, the
      first fifth of the ".jpg" members is the training part and the next
      fifth the validation part.  Both parts have `SplitIndex` names, they
      use different members of the archive, and the remaining three fifths
      or more are never extracted. */
  function SplitTrainVald(names: seq<String>, shuffled: seq<String>): (s: Split)
    requires multiset(shuffled) == multiset(JpgNames(names))
    ensures |s.train| == |s.val| == SplitIndex(|JpgNames(names)|)
    ensures 2 * |s.train| <= |JpgNames(names)|
    ensures multiset(s.train) + multiset(s.val) <= multiset(JpgNames(names))
    ensures forall f :: f in s.train ==> EndsWith(f, ".jpg")
    ensures forall f :: f in s.val ==> EndsWith(f, ".jpg")
  {
    assert |shuffled| == |multiset(shuffled)| == |JpgNames(names)|;
    var k := SplitIndex(|shuffled|);
    var train, val, rest := shuffled[..k], shuffled[k..k + k], shuffled[k + k..];
    assert shuffled == train + val + rest;
    assert multiset(shuffled) == multiset(train) + multiset(val) + multiset(rest);
    forall f | f in train + val ensures EndsWith(f, ".jpg") {
      assert f in multiset(shuffled);
      var i :| 0 <= i < |JpgNames(names)| && JpgNames(names)[i] == f;
    }
    Split(train, val)
  }

  /** The members never extracted: everything after the first two fifths,
      at least three times as many as either part. */
  lemma NeverExtracted(names: seq<String>, shuffled: seq<String>)
    requires multiset(shuffled) == multiset(JpgNames(names))
    ensures var s := SplitTrainVald(names, shuffled);
      |JpgNames(names)| - |s.train| - |s.val| >= 3 * |s.train|
  {
  }

  /** An archive that lists each name once gives two disjoint parts. */
  lemma SplitDisjoint(names: seq<String>, shuffled: seq<String>)
    requires multiset(shuffled) == multiset(JpgNames(names))
    requires forall f :: multiset(names)[f] <= 1
    ensures var s := SplitTrainVald(names, shuffled);
      forall f :: f in s.train ==> f !in s.val
  {
    var s := SplitTrainVald(names, shuffled);
    JpgNamesCounts(names);
    forall f | f in s.train ensures f !in s.val {
      var both := multiset(s.train) + multiset(s.val);
      assert both <= multiset(JpgNames(names));
      assert multiset(s.train)[f] >= 1;
      assert both[f] <= 1;
    }
  }

  /** `get_nb_file`: the number of ".jpg" files in the tree. */
  function GetNbFile(walk: seq<WalkEntry>): (n: nat)
    ensures n == |JpgPositions(walk)|
  {
    JpgPathsCount(walk);
    |JpgPaths(walk)|
  }
}
