# PicoPix core, modelled in Dafny

PicoPix colourises grayscale photos. An autoencoder predicts the a and b
channels of the LAB colour space from the L channel, and a Pix2Pix
generator works in RGB. Training runs are tracked by name, and the best
run of each kind of model is registered and uploaded to a model bucket.
An API looks up the latest version of each model there, and serves the
models with range and shape checks around them.

This project models the deterministic parts of that system:

- the training bookkeeping: the weighted running mean of `AverageMeter`,
  the per-epoch loss lists of `Trainer`, the early-stopping loop of both
  autoencoder scripts, and the counters, sample schedule and loss
  accumulators of the Pix2Pix loop;
- the two datasets: which files they collect, which file an index
  selects, and the LAB normalisation with its inverse;
- the run names, the model name read back from a run name, the choice of
  the best run per model, and the URIs and bucket keys;
- the latest-version lookup of the API, its denormalisation, and its input
  and shape checks;
- the `.jpg` selection and train/validation split of the COCO preparation
  script;
- the rating validator of the API schema.

Losses and pixel values are reals. Networks, colour conversions and
storage are left abstract. Modules follow the source files:

| module | file | source |
|---|---|---|
| `Wrappers` | wrappers.dfy | `Option` and `Result` |
| `Text` | text.dfy | the Python `str` and `posixpath` operations the scripts use |
| `Meters`, `Training`, `Datasets`, `Colour` | meters.dfy, trainer.dfy, datasets.dfy, colour.dfy | src/rd/utils.py |
| `RunConfig` | run_config.dfy | run names and loss choice of the training scripts |
| `EarlyStopping` | early_stopping.dfy | src/rd/scripts/train_autoencoder.py, src/rd/train.py |
| `Pix2pixTraining` | pix2pix.dfy | src/rd/scripts/train_pix2pix.py |
| `Registry` | registry.dfy | src/rd/scripts/register_best_model.py |
| `ApiInference` | api_inference.dfy | src/api/pixlibs/inference.py |
| `RdInference` | rd_inference.dfy | src/rd/inference.py |
| `CocoPreparation` | mscoco.dfy | dataset/prepare_mscoco_dataset.py |
| `Rating` | rating.dfy | src/api/pixlibs/schemas_api.py |

## Model

| member | source | states |
|---|---|---|
| Meters.AverageMeter.constructor | src/rd/utils.py:124-137 | a new meter has `val`, `avg`, `sum` and `count` all zero |
| Meters.AverageMeter.Reset | src/rd/utils.py:130-137 | every field is zero afterwards, and the average invariant holds |
| Meters.AverageMeter.Update | src/rd/utils.py:139-150 | `val` becomes v, `sum` grows by v*n and `count` by n, nothing else changes; the call succeeds iff the new count is non-zero, and then `avg == sum / count`; otherwise `avg` keeps its old value (division by zero after the other fields were assigned) |
| Meters.MeanBetween | src/rd/utils.py:147-150 | with positive weights, the weighted mean of values in [lo, hi] is in [lo, hi] |
| Meters.TotalBetween | src/rd/utils.py:148-149 | the weighted sum lies between lo*count and hi*count |
| Meters.CountPositive | src/rd/utils.py:149 | with positive batch sizes the count is at least the number of updates |
| Meters.AverageMeterScenario | src/rd/tests/test_utils.py:58-64 | `update(10, 2)` then `update(20, 3)` give sum 80, count 5 and average 16 |
| Training.MeterAverage | src/rd/utils.py:186-207 | a fresh meter fed the epoch's batches ends with the batch-size-weighted mean of their losses, 0 for an empty loader |
| Training.Trainer.constructor | src/rd/utils.py:154-163 | both loss lists start empty |
| Training.Trainer.Train | src/rd/utils.py:165-207 | `train_losses` gains exactly one entry, the weighted mean of the epoch's losses; `val_losses` is unchanged |
| Training.Trainer.Validate | src/rd/utils.py:256-274 | `val_losses` gains exactly one entry, the weighted mean, and that same value is returned; `train_losses` is unchanged |
| Datasets.JpgPaths | src/rd/utils.py:19-24 | at most one path per walked file, and every path ends in ".jpg" |
| Datasets.JpgPathsMembers | src/rd/utils.py:19-24 | the paths are exactly the joined root and name of the walked ".jpg" files |
| Datasets.JpgPathsCount | src/rd/utils.py:51-52 | the dataset length equals the number of ".jpg" files in the walk |
| Datasets.NewPix2pixDataset | src/rd/utils.py:16-24 | the dataset holds one path per ".jpg" file |
| Datasets.Pix2pixItem | src/rd/utils.py:26-49 | an item exists iff the dataset is non-empty (otherwise a division by zero); it is the (grayscale, colour) pair of one dataset path |
| Datasets.Pix2pixItemInRange | src/rd/utils.py:28 | an index inside the dataset selects its own path |
| Datasets.Pix2pixItemWraps | src/rd/utils.py:28 | the item depends only on the index modulo the length, so every index maps in bounds |
| Datasets.NewLabColorDataset | src/rd/utils.py:56-76 | the dataset keeps its root and holds one path per ".jpg" file |
| Datasets.LabItemPath | src/rd/utils.py:92 | Python list indexing: an index in [-len, len) selects a path, counting from the end when negative; any other index is an error |
| Datasets.NormaliseL | src/rd/utils.py:106 | L is in [0, 100] iff its normalised value is in [0, 1]; L is 100 times that value |
| Datasets.NormaliseAB | src/rd/utils.py:107-108 | a is in [-128, 127] iff its normalised value is in [0, 1]; a is 255 times that value minus 128 |
| Datasets.LabItem | src/rd/utils.py:103-114 | the three planes have one value per pixel; an image inside the LAB ranges gives planes inside [0, 1] |
| Colour.Interleave | src/rd/inference.py:14-15 | definition of `torch.cat` with `transpose((1, 2, 0))`: pixel k of the H x W x C image holds the k-th value of each plane, the first plane first |
| Colour.InterleaveChannels | src/rd/inference.py:14-17 | splitting an image into its channels and interleaving them again gives the image back, so the channel slices of `to_rgb` address exactly the stacked planes |
| Colour.Channel | src/rd/inference.py:16-17 | definition of the slice `[:, :, c]`: the plane of one channel holds that channel of each pixel |
| Colour.MapPlane | src/rd/utils.py:106-108 | definition of numpy's elementwise arithmetic: the length is kept and each value transformed |
| Colour.Resized | src/rd/inference.py:56 | definition of the size `cv2.resize` produces; OpenCV reads the size pair as (width, height): the result has `dsize[1]` rows and `dsize[0]` columns |
| RunConfig.DatasetName | src/rd/scripts/train_autoencoder.py:79 | the dataset name is the last component of the directory part of the image path: a tail of it without '/', preceded by a '/' unless it is the whole directory part |
| RunConfig.RunName | src/rd/scripts/train_autoencoder.py:79-80 | the run name starts with the kind and "_", and the rest is the dataset name (the same rule names the Pix2Pix runs, src/rd/scripts/train_pix2pix.py lines 91 and 95) |
| RunConfig.DefaultDatasetName | src/rd/scripts/train_autoencoder.py:39-42 | the default image directory "dataset/" gives the dataset name "dataset" |
| RunConfig.DirnameOfDirectory | src/rd/train.py:74 | the directory part of "d/" is d when d has no '/' |
| RunConfig.LastFieldWhole | src/rd/train.py:74 | `split(os.sep)[-1]` of a text without separators is the whole text |
| RunConfig.CriterionFor | src/rd/scripts/train_autoencoder.py:83-86 | definition of the option's choice: MSE iff the loss option is "mse", L1 for every other string |
| EarlyStopping.BestIsMinimum | src/rd/scripts/train_autoencoder.py:141-146 | after at least one epoch the best loss is finite, is one of the losses seen, and is at most each of them |
| EarlyStopping.Step | src/rd/scripts/train_autoencoder.py:141-146 | a strictly worse epoch raises the patience by one and any other resets it to 0; the new best is the smaller of the old best and the epoch's loss |
| EarlyStopping.BestNeverIncreases | src/rd/scripts/train_autoencoder.py:141-146 | the best loss after one more epoch is at most the best before it |
| EarlyStopping.PatienceCountsWorseEpochs | src/rd/scripts/train_autoencoder.py:141-145 | the patience counts the trailing epochs strictly worse than the best; the epoch just before them holds the best loss |
| EarlyStopping.CheckpointHoldsBest | src/rd/scripts/train_autoencoder.py:144-147 | checkpoints are saved at increasing epochs; after one epoch a checkpoint exists, and the last one saved has the best loss |
| EarlyStopping.AutoencoderEpochs | src/rd/scripts/train_autoencoder.py:124-151 | at most `epochs` epochs run; the final state and saved epochs are those of the losses seen; the loop leaves on the first epoch where patience exceeds `early_stop` or the last epoch is reached |
| EarlyStopping.TrainEpochs | src/rd/train.py:110-139 | the same loop; when `epochs >= 1` exactly one model is logged, that of the stopping epoch |
| EarlyStopping.LoggedModelWorseThanBest | src/rd/train.py:136-139 | when the loop stops on patience, the logged epoch's loss is strictly worse than the best |
| EarlyStopping.LoggedModelCounterexample | src/rd/train.py:136-139 | losses 1.0 then 2.0 with `early_stop` 0: the loop stops after epoch 1 and logs it, while the only checkpoint and the best loss are from epoch 0 |
| EarlyStopping.TrainEpochsLoggingBest | src/rd/train.py:136-138 | the intended loop: exactly one logged epoch when `epochs >= 1`, and its loss is the best loss |
| Pix2pixTraining.PatchShape | src/rd/scripts/train_pix2pix.py:112 | one channel, and the height and width divided by 16 rounded down |
| Pix2pixTraining.CheckpointPath | src/rd/scripts/train_pix2pix.py:126-128 | the checkpoint of a network is "models/<network>_..." and ends in ".pth" (its epoch is read back by CheckpointEpoch) |
| Pix2pixTraining.StartFrom | src/rd/scripts/train_pix2pix.py:124-133 | weights are initialised iff the start epoch is 0; otherwise both checkpoints of that epoch are loaded |
| Pix2pixTraining.StartFromInjective | src/rd/scripts/train_pix2pix.py:126-129 | different start epochs start from different checkpoint files |
| Pix2pixTraining.CheckpointEpoch | src/rd/scripts/train_pix2pix.py:126 | the epoch can be read back from the middle of the checkpoint name |
| Pix2pixTraining.GeneratorLoss | src/rd/scripts/train_pix2pix.py:228-229 | the generator loss is at least the adversarial loss when the pixel loss is not negative, and equals it iff the pixel loss is 0 |
| Pix2pixTraining.DiscriminatorLoss | src/rd/scripts/train_pix2pix.py:250-251 | the discriminator loss is the midpoint of the real and fake losses |
| Pix2pixTraining.EpochCount | src/rd/scripts/train_pix2pix.py:198 | no epoch runs iff the start epoch is not below `n_epochs`; otherwise the epochs run up to `n_epochs - 1` |
| Pix2pixTraining.SampledBatchesExactly | src/rd/scripts/train_pix2pix.py:286-287 | a sample is saved exactly at the batch numbers that are multiples of the interval, each once, in increasing order |
| Pix2pixTraining.TrainLoop | src/rd/scripts/train_pix2pix.py:152-290 | `batches_done` runs through start*len, start*len+1, ... with `batches_done + batches_left == n_epochs*len` and at least one batch left at every progress line; samples follow the schedule; only the last epoch's averages are logged, at step `n_epochs - 1`; an empty training, validation or test set fails when its shuffling loader is built, exactly then, before any epoch and whatever the epoch range; otherwise no epoch to run, or a zero interval, ends in the error the script raises |
| Pix2pixTraining.BatchesLeftPositive | src/rd/scripts/train_pix2pix.py:262-263 | inside the loops `batches_left` is at least 1 |
| Pix2pixTraining.GeneratorSumBetween | src/rd/scripts/train_pix2pix.py:230 | the accumulated generator loss lies between n*lo and n*hi when every batch loss is in [lo, hi] |
| Pix2pixTraining.LoggedGeneratorLoss | src/rd/scripts/train_pix2pix.py:289 | the logged generator loss lies between the smallest and largest batch loss of the last epoch |
| Registry.ModelName | src/rd/scripts/register_best_model.py:91-93 | the model name is the run name up to its first '_': a prefix without '_', followed in the run name by '_' unless it is the whole name; "" for a run without a name |
| Registry.ModelNameOfRunName | src/rd/scripts/register_best_model.py:91-93 | a run named `<kind>_<dataset>` gives back the kind, whatever underscores the dataset holds |
| Registry.ModelNamesOfTrainingRuns | src/rd/scripts/register_best_model.py:91-93 | the runs of the two training scripts give the names "autoencoder" and "pix2pix" |
| Registry.FindBestModels | src/rd/scripts/register_best_model.py:87-104 | the keys are exactly the names with a run that has a validation loss; each entry is the minimum loss of that name and the id of the first run reaching it |
| Registry.TrackKept | src/rd/scripts/register_best_model.py:96-102 | a run that does not beat its model's entry leaves the search state valid one run further |
| Registry.TrackReplaced | src/rd/scripts/register_best_model.py:98-102 | a run that beats its model's entry, or is its first scored run, becomes the entry and keeps the state valid |
| Registry.TracksAll | src/rd/scripts/register_best_model.py:104 | the search state after the last run is the specified result |
| Registry.KeepBest | src/rd/scripts/register_best_model.py:100 | a run not strictly better keeps the earlier best, so ties keep the earliest run |
| Registry.NewBest | src/rd/scripts/register_best_model.py:100-102 | a run strictly better than every earlier run of its model becomes its best |
| Registry.ModelUri | src/rd/scripts/register_best_model.py:118 | the URI starts with "runs:/" |
| Registry.ModelUriParts | src/rd/scripts/register_best_model.py:118 | the URI gives back its run id and model name when neither contains '/' |
| Registry.DirectoryKey | src/rd/scripts/register_best_model.py:56 | the key starts with the model name and '/', ends with the relative path, and has nothing in between |
| Registry.FileKey | src/rd/scripts/register_best_model.py:66 | the key is the model name followed directly by "_best_model.pth" |
| ApiInference.KeyVersion | src/api/pixlibs/inference.py:51-53 | a version is the value of the digits left after the last "_v" of the key once ".pth" is removed |
| ApiInference.KeyVersionOfJoined | src/api/pixlibs/inference.py:51-53 | conversely, for `prefix + "_v" + last` with no "_v" in `last`, the version is read from `last` whatever the prefix |
| ApiInference.IsWeightsKey | src/api/pixlibs/inference.py:45-49 | definition of the listing filter: under `<model>/` and ending in ".pth" |
| ApiInference.Candidates | src/api/pixlibs/inference.py:45-54 | at most one (version, key) pair per listed key |
| ApiInference.CandidatesMembers | src/api/pixlibs/inference.py:45-54 | a pair is a candidate iff its key is listed, is under `<model>/`, ends in ".pth" and carries the pair's version |
| ApiInference.GetLatestModelKey | src/api/pixlibs/inference.py:41-70 | an error iff no key under `<model>/` ending in ".pth" carries a version; otherwise the key with the largest version, the first listed one on ties |
| ApiInference.VersionedKeyFound | src/api/pixlibs/inference.py:49-54 | a key `<model>/<stem>_v<N>.pth` is a candidate of version N, whatever "_v" the stem holds |
| ApiInference.NoUnderscoreNoVersionMark | src/api/pixlibs/inference.py:51 | a text without '_' does not contain "_v" |
| ApiInference.SingleFileUploadNotListed | src/api/pixlibs/inference.py:45 | a model uploaded as the single file `<model>_best_model.pth` is never listed under `<model>/` |
| ApiInference.ApiDenormaliseAB | src/api/pixlibs/inference.py:114 | ab in [-1, 1] maps onto [-128, 128] |
| ApiInference.ApiToRgb | src/api/pixlibs/inference.py:108-114 | the stacked image with the L slice times 100 and the ab slice times 128, rewritten in place |
| ApiInference.ApiDenormaliseABRoundTrip | src/api/pixlibs/inference.py:114 | the API scaling undoes the training normalisation only at a = 16384/127 |
| ApiInference.ApiDenormaliseABCounterexample | src/api/pixlibs/inference.py:114 | a = -128 is normalised to 0 for training and comes back as 0 from the API, but as -128 from the research script |
| ApiInference.Min | src/api/pixlibs/inference.py:122 | the minimum is an element and at most every element |
| ApiInference.Max | src/api/pixlibs/inference.py:122 | the maximum is an element and at least every element |
| ApiInference.NormaliseInput | src/api/pixlibs/inference.py:121-124 | an empty image is an error; an image within [0, 1] is kept; any other is divided by 255 elementwise |
| ApiInference.NormaliseInputIdempotent | src/api/pixlibs/inference.py:148-150 | an 8-bit image comes out in [0, 1], and checking it again changes nothing |
| ApiInference.GrayToRgb | src/api/pixlibs/inference.py:153-154 | a grayscale image becomes three channels each equal to it |
| ApiInference.Pix2pixInputSize | src/api/pixlibs/inference.py:147-160 | accepted iff the image is non-empty and is 2-D or has at least two dimensions and a last one of 3; an empty image fails the range check; the size is the first two dimensions; a 0-D shape is an index error, a wrong last dimension a ValueError, shape (3) an unpacking error |
| ApiInference.Pix2pixOutputSize | src/api/pixlibs/inference.py:147-183 | the errors of the shape checks; then `ToPILImage` refuses more than three dimensions; otherwise the output has the input's rows and columns |
| ApiInference.Cat0 | src/api/pixlibs/inference.py:109 | `torch.cat(..., dim=0)` succeeds iff both shapes have the same number of dimensions and agree beyond the first, which is summed |
| ApiInference.AutoencoderOutputSize | src/api/pixlibs/inference.py:121-137 | as written no input gives an image: an empty image fails the range check, fewer than two dimensions fail to unpack, an image outside [0, 1] is rescaled to float16, which `cv2.resize` refuses, more than two dimensions are refused by the network, and a 2-D image in [0, 1] fails the concatenation of `input_gray[0, 0]` with `output_ab[0]` |
| ApiInference.AutoencoderOutputSizeFixed | src/rd/inference.py:52-56 | with `input_gray[0]` as the research script passes it, exactly the non-empty 2-D images already in [0, 1] succeed, at their own rows and columns; the other cases fail as in the version as written |
| ApiInference.RestoredSize | src/api/pixlibs/inference.py:137 | resizing to `(original_w, original_h)` gives back the original size |
| ApiInference.Standardise | src/api/pixlibs/inference.py:168 | [0, 1] maps onto [-1, 1] |
| ApiInference.Destandardise | src/api/pixlibs/inference.py:182 | the inverse of the input standardisation; [-1, 1] maps back onto [0, 1] |
| RdInference.DenormaliseL | src/rd/inference.py:16 | the dataset's L normalisation maps the result back to the input |
| RdInference.DenormaliseAB | src/rd/inference.py:17 | the dataset's a/b normalisation maps the result back to the input |
| RdInference.ToRgb | src/rd/inference.py:11-19 | the L, a, b planes stacked L first, then the L slice and the ab slice denormalised in place |
| RdInference.DenormaliseLabItem | src/rd/inference.py:16-17 | denormalising a dataset item gives back exactly the LAB image it came from |
| RdInference.OutputSize | src/rd/inference.py:44-56 | despite the swapped names `w, h`, the output has the input's rows and columns; a shape with fewer than two dimensions fails to unpack |
| CocoPreparation.ZipPath | dataset/prepare_mscoco_dataset.py:36 | the archive path is the base directory, '/', and the last component of the URL |
| CocoPreparation.ZipPathOfUrl | dataset/prepare_mscoco_dataset.py:36 | a URL `<location>/<file>` is saved as "./coco_dataset/<file>" |
| CocoPreparation.DownloadArchive | dataset/prepare_mscoco_dataset.py:35-46 | the archive is fetched iff nothing exists at its path, and the path is returned either way |
| CocoPreparation.DownloadOnce | dataset/prepare_mscoco_dataset.py:37-45 | a second download of the same URL fetches nothing and returns the same path |
| CocoPreparation.JpgNames | dataset/prepare_mscoco_dataset.py:53-58 | at most the listed names, each ending in ".jpg" |
| CocoPreparation.JpgNamesCounts | dataset/prepare_mscoco_dataset.py:53-58 | each ".jpg" member is kept as often as the archive lists it, nothing else is kept |
| CocoPreparation.SplitIndex | dataset/prepare_mscoco_dataset.py:64 | a fifth of the file count, rounded down |
| CocoPreparation.SplitTrainVald | dataset/prepare_mscoco_dataset.py:49-66 | both parts have `split_index` names; together they use at most the archive's ".jpg" members and at most two fifths of them; all are ".jpg" |
| CocoPreparation.NeverExtracted | dataset/prepare_mscoco_dataset.py:65-78 | at least three times as many members as either part are never extracted |
| CocoPreparation.SplitDisjoint | dataset/prepare_mscoco_dataset.py:64-66 | an archive listing each name once gives disjoint training and validation parts |
| CocoPreparation.GetNbFile | dataset/prepare_mscoco_dataset.py:92-99 | the count of the ".jpg" files of the tree |
| Rating.BitOr | src/api/pixlibs/schemas_api.py:13 | definition of Python's `\|` on integers, bit by bit in two's complement; its meaning at 0 is ZeroOr |
| Rating.ZeroOr | src/api/pixlibs/schemas_api.py:13 | `0 \| v == v` for every integer, under two's complement bitwise or |
| Rating.RatingVerificationAsWritten | src/api/pixlibs/schemas_api.py:12-15 | an accepted rating is returned unchanged |
| Rating.AsWrittenAcceptsAll | src/api/pixlibs/schemas_api.py:13-15 | the validator as written accepts every integer |
| Rating.AsWrittenAcceptsEleven | src/api/pixlibs/schemas_api.py:13-14 | 11 passes the validator as written but not the validator the message describes |
| Rating.RatingVerification | src/api/pixlibs/schemas_api.py:12-15 | accepted iff 0 <= v <= 10, and an accepted rating is returned unchanged |
| Text.FirstField | src/rd/scripts/register_best_model.py:91-93 | `split(c)[0]`: the longest prefix without c |
| Text.FirstFieldOfJoined | src/rd/scripts/register_best_model.py:91-93 | `(k + c + rest).split(c)[0] == k` when k has no c |
| Text.LastField | src/rd/scripts/train_autoencoder.py:79 | `split(c)[-1]`: the longest suffix without c |
| Text.LastFieldOfJoined | dataset/prepare_mscoco_dataset.py:36 | `(prefix + c + k).split(c)[-1] == k` when k has no c |
| Text.Dirname | src/rd/scripts/train_autoencoder.py:79 | `posixpath.dirname`: the path up to its last '/', with the trailing slashes removed unless only slashes remain; empty iff the path has no '/' |
| Text.Join | src/rd/utils.py:20 | an absolute second part replaces the first; otherwise the second part follows the first, with a '/' added unless the first is empty or already ends in '/' |
| Text.AfterLast | src/api/pixlibs/inference.py:51-52 | `split(sep)[-1]` for a separator that cannot overlap itself, when there is more than one part: the text ends with sep and the result, and the result has no sep; no part when sep does not occur |
| Text.AfterLastOfJoined | src/api/pixlibs/inference.py:51-52 | the last part of `prefix + sep + k` is k when k has no sep and sep cannot overlap itself |
| Text.RemoveAll | src/api/pixlibs/inference.py:52 | `replace(pat, "")` never lengthens the text |
| Text.RemoveAllWithout | src/api/pixlibs/inference.py:52 | a text in which the pattern does not occur is returned unchanged |
| Text.IsDigits | src/api/pixlibs/inference.py:52 | definition of `isdigit` on ASCII text: non-empty and all digits |
| Text.DigitsValue | src/api/pixlibs/inference.py:53 | definition of `int` on ASCII digits, most significant first; NatToString reads back through it |
| Text.RemovePthAfterDigits | src/api/pixlibs/inference.py:52-53 | removing ".pth" from `<digits>.pth` leaves the digits |
| Text.NatToString | src/rd/scripts/train_pix2pix.py:126 | `"%d"` of a natural number is a run of digits that reads back as the number |
| Text.IntToString | src/rd/scripts/train_pix2pix.py:126-128 | `"%d"` of an integer reads back as the integer, with a leading '-' when it is negative |
| Text.IntToStringInjective | src/rd/scripts/train_pix2pix.py:126-128 | different integers are formatted differently |

## Left out

- Networks, optimisers, schedulers and the numeric values of the loss functions are not modelled. Every loss is an opaque real given as a parameter.
- The colour conversions (`rgb2lab`, `lab2rgb`, `rgb2gray`), `cv2.imread`, `cv2.resize` and PIL are not modelled. Only the shapes they produce and the linear normalisations around them are kept.
- Floating point is not modelled: values are exact reals. The `float16` cast of the input check is modelled only as the array `cv2.resize` refuses in `infer_autoencoder`; the final `uint8` cast of the inference outputs are left out. `int(0.2 * n)` is modelled as `n / 5`.
- ApiInference.KeyVersion: `str.isdigit` and `int` are modelled for the ASCII digits only. The source reads other Unicode decimal digits too (`int` turns "٣" or a fullwidth "３" into 3), so it lists a key such as `m/x_v٣.pth` as version 3, which the model does not list. Digits that are not decimal, such as "²", pass `isdigit` and then make `int` raise, and `get_latest_model_uri` re-raises that error; the model returns no version for them.
- The path separator `os.sep` is '/'.
- The S3, MinIO and MLflow calls are not modelled, because they are network I/O. This covers uploads, model registration, metric logging, the presigned URL and the module-level weight download loop of the API. The bucket listing and the run search are given as lists in listing order. The server-side `Prefix` filter is checked inside the listing loop.
- The archive download, the zip extraction and the COCO annotations are not modelled, because they are file and network I/O. The unused `img_ids_filter` is therefore absent too.
- `random.shuffle` is an arbitrary permutation passed in by the caller. Loader shuffling does not appear.
- Clock-dependent values are not modelled: the batch and data time meters, and the ETA of the Pix2Pix loop.
- Printing and progress logging are not modelled, including `_log_training` and `_log_validation`.
- `plot_losses` and `clean_train_imgs` are not modelled. They do plotting, JSON output, HSV conversion and file deletion.
- The dataset transforms, and the `* 2 - 1` rescaling of the Pix2Pix dataset, are not modelled. A Pix2Pix item is described by the file it comes from.
- The authentication, OAuth2, database, schema (other than the rating validator), FastAPI route and Streamlit UI code is not part of this model. Neither is src/rd/scripts/inference_pix2pix.py.
- src/rd/train.py imports a dataset class that src/rd/utils.py does not define. Only its training loop is modelled.
- `infer_pix2pix` uses the module-level loop variable `model`. This binding is not modelled.
- Training.Trainer.Train: requires positive batch sizes, which a DataLoader always yields. Zero or negative weights are not modelled.
- Training.Trainer.Validate: requires positive batch sizes, for the same reason.
- EarlyStopping.AutoencoderEpochs: requires one validation loss per epoch that may run, since the losses are an input. NaN losses are not modelled.
- EarlyStopping.TrainEpochs: requires one validation loss per epoch that may run, for the same reason.
- RdInference.ToRgb: requires three planes of one size. The error `torch.cat` raises for mismatched sizes is not modelled.
- ApiInference.ApiToRgb: requires three planes of one size, for the same reason. It models `to_rgb` on the (1, H, W) and (2, H, W) inputs its docstring names; `infer_autoencoder` never passes such inputs (see Findings).
- ApiInference.AutoencoderOutputSize: the network is taken to accept only a (1, 1, H, W) input, so every image of more than two dimensions is reported as refused by it. `cv2.resize` turning an (H, W, 1) image into a 2-D one is not modelled; such an image would fail at the concatenation instead.
- ApiInference.Pix2pixOutputSize: the float16 array an out-of-range image is rescaled into is taken to pass `ToPILImage` like any other array; the data type is not modelled.
- Pix2pixTraining.TrainLoop: the loader has the same number of batches in every epoch. Of the validation and test loaders only their being built is modelled: the validation batch drawn for each sample image and the test error computed after the loop are not. The checkpoints saved after the loop and the content of the sample images are not modelled.

## Findings

| source | as written | input that shows it | evidently intended | confidence | as-written member | corrected member |
|---|---|---|---|---|---|---|
| src/api/pixlibs/schemas_api.py:13 | `v<0 \| v>10` parses as the chained comparison `v < (0 \| v) > 10`, whose first link `v < v` is always false, so no rating is rejected | rate 11 | reject ratings outside 0..10, as the error message says | high, not executed | Rating.AsWrittenAcceptsEleven | Rating.RatingVerification |
| src/api/pixlibs/inference.py:114 | the a and b channels of the autoencoder output are multiplied by 128, as if they were in [-1, 1], but the training dataset maps them into [0, 1] with `(a + 128) / 255` | a = -128 is normalised to 0 and comes back as 0 | `x * 255 - 128`, the inverse used by src/rd/inference.py:17 | medium, not executed | ApiInference.ApiDenormaliseABCounterexample | RdInference.DenormaliseLabItem |
| src/api/pixlibs/inference.py:136 | `to_rgb` gets `input_gray[0, 0]`, of shape (256, 256), next to `output_ab[0]`, of shape (2, 256, 256), and `torch.cat` refuses tensors with different numbers of dimensions, so `infer_autoencoder` never returns an image | any grayscale float image in [0, 1], e.g. of shape (480, 640) | pass `input_gray[0]`, of shape (1, 256, 256), as src/rd/inference.py:53 does | high, not executed | ApiInference.AutoencoderOutputSize | ApiInference.AutoencoderOutputSizeFixed |
| src/rd/train.py:136-139 | when patience runs out, the model of the current epoch is logged, though the comment says only the best model is saved; that epoch is strictly worse than the best one | validation losses 1.0, 2.0 with `early_stop` 0 and 3 epochs: epoch 1 (loss 2.0) is logged, and the best is epoch 0 (loss 1.0) | log the best checkpoint | medium, not executed | EarlyStopping.LoggedModelCounterexample | EarlyStopping.TrainEpochsLoggingBest |
