/** Selection and registration of the best trained models
    (src/rd/scripts/register_best_model.py): every run of the experiment is
    grouped under the model name its run name starts with, the run with the
    lowest validation loss is kept per name, and it is registered under a
    `runs:/` URI and uploaded under keys derived from the name.  The MLflow
    and S3 calls are not modelled: the search result is a list of run
    records and the URIs and keys are returned as values. */
module Registry {
  import opened Wrappers
  import opened Text
  import opened RunConfig

  /** What the run search reports of one run: its id, its
      "mlflow.runName" tag if any, and its "val_loss" metric if any. */
  datatype RunRecord = RunRecord(runId: String, runName: Option<String>, valLoss: Option<real>)

  /** `run.data.tags.get("mlflow.runName", "").split("_")[0]`: the run name
      up to its first underscore, "" for a run without a name. */
  function ModelName(run: RunRecord): (name: String)
    ensures '_' !in name
    ensures run.runName.None? ==> name == ""
    ensures run.runName.Some? ==> StartsWith(run.runName.value, name)
    ensures run.runName.Some? && |name| < |run.runName.value| ==> run.runName.value[|name|] == '_'
  {
    FirstField(if run.runName.Some? then run.runName.value else "", '_')
  }

  /** The training scripts name their runs `<kind>_<dataset>`; the model
      name read back from such a run is the kind, whatever underscores the
      dataset name holds. */
  lemma ModelNameOfRunName(runId: String, kind: String, imageDir: String, loss: Option<real>)
    requires '_' !in kind
    ensures ModelName(RunRecord(runId, Some(RunName(kind, imageDir)), loss)) == kind
  {
    FirstFieldOfJoined(kind, '_', DatasetName(imageDir));
  }

  /** In particular the two kinds of model are told apart. */
  lemma ModelNamesOfTrainingRuns(runId: String, imageDir: String, loss: Option<real>)
    ensures ModelName(RunRecord(runId, Some(RunName(AutoencoderKind, imageDir)), loss)) == "autoencoder"
    ensures ModelName(RunRecord(runId, Some(RunName(Pix2pixKind, imageDir)), loss)) == "pix2pix"
  {
    assert forall i :: 0 <= i < |AutoencoderKind| ==> AutoencoderKind[i] != '_';
    assert forall i :: 0 <= i < |Pix2pixKind| ==> Pix2pixKind[i] != '_';
    ModelNameOfRunName(runId, AutoencoderKind, imageDir, loss);
    ModelNameOfRunName(runId, Pix2pixKind, imageDir, loss);
  }

  /** Run `i` has a validation loss and belongs to model `name`. */
  ghost predicate Scored(runs: seq<RunRecord>, i: int, name: String)
  {
    0 <= i < |runs| && runs[i].valLoss.Some? && ModelName(runs[i]) == name
  }

  /** Among the first `k` runs, run `i` is the first run of model `name`
      with the lowest validation loss of that model. */
  ghost predicate FirstBestBelow(runs: seq<RunRecord>, k: int, i: int, name: String)
  {
    i < k && Scored(runs, i, name) &&
    (forall j :: 0 <= j < k && Scored(runs, j, name) ==> runs[i].valLoss.value <= runs[j].valLoss.value) &&
    (forall j :: 0 <= j < i && Scored(runs, j, name) ==> runs[i].valLoss.value < runs[j].valLoss.value)
  }

  /** Run `i` is the first run of model `name` with the lowest validation
      loss of that model. */
  ghost predicate FirstBest(runs: seq<RunRecord>, i: int, name: String)
  {
    FirstBestBelow(runs, |runs|, i, name)
  }

  /** The state of the search after the first `k` runs: `best` holds an
      entry for every model name among them that has a scored run, and `at`
      names the run each entry was taken from, the first best one. */
  ghost predicate Tracks(runs: seq<RunRecord>, k: int, best: map<String, (real, String)>, at: map<String, int>)
  {
    0 <= k <= |runs| && at.Keys == best.Keys &&
    (forall name :: name in best ==>
      FirstBestBelow(runs, k, at[name], name) &&
      best[name] == (runs[at[name]].valLoss.value, runs[at[name]].runId)) &&
    (forall i :: 0 <= i < k && runs[i].valLoss.Some? ==> ModelName(runs[i]) in best)
  }

  /** `find_best_models`: one entry per model name that has at least one
      run with a validation loss, holding the lowest such loss and the id of
      the first run that reached it (the comparison is a strict `<`). */
  method FindBestModels(runs: seq<RunRecord>) returns (best: map<String, (real, String)>)
    ensures forall name :: name in best <==> exists i :: Scored(runs, i, name)
    ensures forall name :: name in best ==>
      exists i :: FirstBest(runs, i, name) && best[name] == (runs[i].valLoss.value, runs[i].runId)
  {
    best := map[];
    ghost var at: map<String, int> := map[];
    var k := 0;
    while k < |runs|
      invariant Tracks(runs, k, best, at)
    {
      var run := runs[k];
      var modelName := ModelName(run);
      if run.valLoss.Some? && (modelName !in best || run.valLoss.value < best[modelName].0) {
        TrackReplaced(runs, k, best, at);
        best := best[modelName := (run.valLoss.value, run.runId)];
        at := at[modelName := k];
      } else {
        TrackKept(runs, k, best, at);
      }
      k := k + 1;
    }
    TracksAll(runs, best, at);
  }

  /** A run that does not beat the best run of its model changes nothing. */
  lemma TrackKept(runs: seq<RunRecord>, k: int, best: map<String, (real, String)>, at: map<String, int>)
    requires Tracks(runs, k, best, at) && k < |runs|
    requires runs[k].valLoss.Some? ==>
      ModelName(runs[k]) in best && runs[k].valLoss.value >= best[ModelName(runs[k])].0
    ensures Tracks(runs, k + 1, best, at)
  {
    forall name | name in best ensures FirstBestBelow(runs, k + 1, at[name], name) {
      KeepBest(runs, k, at[name], name);
    }
  }

  /** A run that beats the best run of its model, or is its first scored
      run, becomes its entry. */
  lemma TrackReplaced(runs: seq<RunRecord>, k: int, best: map<String, (real, String)>, at: map<String, int>)
    requires Tracks(runs, k, best, at) && k < |runs|
    requires runs[k].valLoss.Some?
    requires ModelName(runs[k]) in best ==> runs[k].valLoss.value < best[ModelName(runs[k])].0
    ensures Tracks(runs, k + 1,
      best[ModelName(runs[k]) := (runs[k].valLoss.value, runs[k].runId)],
      at[ModelName(runs[k]) := k])
  {
    var m := ModelName(runs[k]);
    var best', at' := best[m := (runs[k].valLoss.value, runs[k].runId)], at[m := k];
    forall j | 0 <= j < k && Scored(runs, j, m)
      ensures runs[k].valLoss.value < runs[j].valLoss.value
    {
      assert m in best;
    }
    NewBest(runs, k, m);
    forall name | name in best' ensures FirstBestBelow(runs, k + 1, at'[name], name) {
      if name != m {
        KeepBest(runs, k, at[name], name);
      }
    }
  }

  /** A run that does not beat the best run of its model leaves it the
      best. */
  lemma KeepBest(runs: seq<RunRecord>, k: int, i: int, name: String)
    requires 0 <= k < |runs| && FirstBestBelow(runs, k, i, name)
    requires Scored(runs, k, name) ==> runs[i].valLoss.value <= runs[k].valLoss.value
    ensures FirstBestBelow(runs, k + 1, i, name)
  {
  }

  /** A run that beats every earlier run of its model becomes its best. */
  lemma NewBest(runs: seq<RunRecord>, k: int, name: String)
    requires Scored(runs, k, name)
    requires forall j :: 0 <= j < k && Scored(runs, j, name) ==> runs[k].valLoss.value < runs[j].valLoss.value
    ensures FirstBestBelow(runs, k + 1, k, name)
  {
  }

  /** After the last run the search state is the specified result. */
  lemma TracksAll(runs: seq<RunRecord>, best: map<String, (real, String)>, at: map<String, int>)
    requires Tracks(runs, |runs|, best, at)
    ensures forall name :: name in best <==> exists i :: Scored(runs, i, name)
    ensures forall name :: name in best ==>
      exists i :: FirstBest(runs, i, name) && best[name] == (runs[i].valLoss.value, runs[i].runId)
  {
    forall name | name in best
      ensures exists i :: FirstBest(runs, i, name) && best[name] == (runs[i].valLoss.value, runs[i].runId)
    {
      assert FirstBest(runs, at[name], name);
    }
  }

  /** `f"runs:/{best_run_id}/{model_name}"`: the URI a model version is
      registered from. */
  function ModelUri(runId: String, name: String): (uri: String)
    ensures StartsWith(uri, "runs:/")
  {
    "runs:/" + runId + "/" + name
  }

  /** The URI names its run and its model: the model name is its last path
      component and the run id the component between "runs:/" and it, as
      long as neither contains a '/'. */
  lemma ModelUriParts(runId: String, name: String)
    requires '/' !in runId && '/' !in name
    ensures LastField(ModelUri(runId, name), '/') == name
    ensures FirstField(ModelUri(runId, name)[6..], '/') == runId
  {
    LastFieldOfJoined("runs:/" + runId, '/', name);
    assert ModelUri(runId, name) == ("runs:/" + runId) + ['/'] + name;
    assert ModelUri(runId, name)[6..] == runId + ['/'] + name;
    FirstFieldOfJoined(runId, '/', name);
  }

  /** `f"{model_name}/{relative_path}"`: the key of one file of a model
      directory. */
  function DirectoryKey(name: String, relativePath: String): (key: String)
    ensures StartsWith(key, name + "/") && EndsWith(key, relativePath)
    ensures |key| == |name| + 1 + |relativePath|
  {
    name + "/" + relativePath
  }

  /** `f"{model_name}_best_model.pth"`: the key of a model that is a single
      file. */
  function FileKey(name: String): (key: String)
    ensures StartsWith(key, name) && EndsWith(key, "_best_model.pth")
    ensures |key| == |name| + |"_best_model.pth"|
  {
    name + "_best_model.pth"
  }
}
