/** The names and choices the training scripts derive from their
    command-line arguments: the dataset name and the tracking run name
    (src/rd/scripts/train_autoencoder.py, src/rd/train.py,
    src/rd/scripts/train_pix2pix.py) and the loss criterion of the
    autoencoder scripts. */
module RunConfig {
  import opened Text

  const AutoencoderKind: String := "autoencoder"
  const Pix2pixKind: String := "pix2pix"

  /** `os.path.dirname(image_dir).split(os.path.sep)[-1]`: the last
      component of the directory part of `image_dir`. */
  function DatasetName(imageDir: String): (ds: String)
    ensures '/' !in ds
    ensures |ds| <= |Dirname(imageDir)| && ds == Dirname(imageDir)[|Dirname(imageDir)| - |ds|..]
    ensures |ds| < |Dirname(imageDir)| ==> Dirname(imageDir)[|Dirname(imageDir)| - |ds| - 1] == '/'
  {
    LastField(Dirname(imageDir), '/')
  }

  /** `f"{kind}_{dataset}"`: the run name under which a training script
      records its run. */
  function RunName(kind: String, imageDir: String): (r: String)
    ensures StartsWith(r, kind + "_")
    ensures r[|kind| + 1..] == DatasetName(imageDir)
  {
    kind + "_" + DatasetName(imageDir)
  }

  /** With the default `--image_dir dataset/` the dataset is "dataset", so
      the runs are named "autoencoder_dataset" and "pix2pix_dataset". */
  lemma DefaultDatasetName()
    ensures DatasetName("dataset/") == "dataset"
  {
    var d: String := "dataset";
    assert forall i :: 0 <= i < |d| ==> d[i] != '/';
    assert "dataset/" == d + ['/'];
    DirnameOfDirectory(d);
    LastFieldWhole(d, '/');
  }

  /** The directory part of `d + "/"` is `d` when `d` has no slash. */
  lemma DirnameOfDirectory(d: String)
    requires d != [] && '/' !in d
    ensures Dirname(d + "/") == d
  {
    var p := d + "/";
    assert LastField(p, '/') == [];
    assert p[..|p|] == p;
    assert p[0] != '/';
    assert p[..|p| - 1] == d;
    assert RStrip(p, '/') == RStrip(d, '/');
  }

  /** A text without the separator is its own last field. */
  lemma {:induction false} LastFieldWhole(s: String, c: char)
    requires c !in s
    ensures LastField(s, c) == s
  {
    if s != [] {
      LastFieldWhole(s[..|s| - 1], c);
    }
  }

  datatype Criterion = MSELoss | L1Loss

  /** `--loss`: "mse" selects the mean squared error, any other text the
      mean absolute error. */
  function CriterionFor(loss: String): (c: Criterion)
    ensures c == MSELoss <==> loss == "mse"
    ensures c == L1Loss <==> loss != "mse"
  {
    if loss == "mse" then MSELoss else L1Loss
  }
}
