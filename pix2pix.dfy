/** The Pix2Pix training script (src/rd/scripts/train_pix2pix.py): the
    PatchGAN output shape, the choice between resuming from checkpoints and
    initialising the weights, the combination of the generator and
    discriminator losses, and the bookkeeping of the epoch and batch loops
    (progress counters, sample schedule and per-epoch loss accumulators).
    The networks, optimisers, data loading and the clock are not modelled:
    the per-batch losses are given as functions of (epoch, batch). */
module Pix2pixTraining {
  import opened Text
  import Meters

  /** `lambda_pixel`, the weight of the L1 pixel loss. */
  const LambdaPixel: real := 100.0

  /** `(1, img_height // 2**4, img_width // 2**4)`: the discriminator
      output has one channel and a sixteenth of the image height and width,
      rounded down. */
  function PatchShape(imgHeight: int, imgWidth: int): (p: (int, int, int))
    ensures p.0 == 1
    ensures 16 * p.1 <= imgHeight < 16 * p.1 + 16
    ensures 16 * p.2 <= imgWidth < 16 * p.2 + 16
  {
    (1, imgHeight / 16, imgWidth / 16)
  }

  /** How the networks start: from the checkpoints saved at an epoch, or
      from fresh weights. */
  datatype Start = LoadCheckpoints(generator: String, discriminator: String) | InitialiseWeights

  function CheckpointPath(network: String, epoch: int): (path: String)
    ensures StartsWith(path, "models/" + network + "_") && EndsWith(path, ".pth")
  {
    "models/" + network + "_" + IntToString(epoch) + ".pth"
  }

  /** `if args.epoch != 0`: a non-zero start epoch loads
      "models/generator_%d.pth" and "models/discriminator_%d.pth", epoch 0
      initialises the weights. */
  function StartFrom(epoch: int): (s: Start)
    ensures s.InitialiseWeights? <==> epoch == 0
    ensures s.LoadCheckpoints? ==>
      s.generator == CheckpointPath("generator", epoch) && s.discriminator == CheckpointPath("discriminator", epoch)
  {
    if epoch != 0 then LoadCheckpoints(CheckpointPath("generator", epoch), CheckpointPath("discriminator", epoch))
    else InitialiseWeights
  }

  /** Different start epochs start from different files: the epoch can be
      read back from the checkpoint name. */
  lemma StartFromInjective(e1: int, e2: int)
    requires StartFrom(e1) == StartFrom(e2)
    ensures e1 == e2
  {
    if e1 != 0 && e2 != 0 {
      CheckpointEpoch("generator", e1);
      CheckpointEpoch("generator", e2);
      IntToStringInjective(e1, e2);
    }
  }

  /** The epoch written into a checkpoint name sits between the
      "models/<network>_" prefix and the ".pth" suffix. */
  lemma CheckpointEpoch(network: String, epoch: int)
    ensures var p := CheckpointPath(network, epoch);
      |p| >= |network| + 12 && p[|network| + 8..|p| - 4] == IntToString(epoch)
  {
    var s := IntToString(epoch);
    var prefix := "models/" + network + "_";
    assert CheckpointPath(network, epoch) == prefix + s + ".pth";
    assert |prefix| == |network| + 8;
    assert (prefix + s + ".pth")[|prefix|..|prefix| + |s|] == s;
  }

  /** `loss_G = loss_GAN + lambda_pixel * loss_pixel`: never below the
      adversarial loss, since an L1 loss is not negative, and equal to it
      when the pixel loss is 0. */
  function GeneratorLoss(lossGan: real, lossPixel: real): (g: real)
    ensures lossPixel >= 0.0 ==> g >= lossGan
    ensures lossPixel == 0.0 <==> g == lossGan
  {
    lossGan + LambdaPixel * lossPixel
  }

  /** `loss_D = 0.5 * (loss_real + loss_fake)`: the midpoint of the two
      losses. */
  function DiscriminatorLoss(lossReal: real, lossFake: real): (d: real)
    ensures d - lossReal == lossFake - d
    ensures lossReal <= lossFake ==> lossReal <= d <= lossFake
    ensures lossFake <= lossReal ==> lossFake <= d <= lossReal
  {
    0.5 * (lossReal + lossFake)
  }

  /** The per-batch losses of one training run, as functions of the epoch
      and of the batch index within the epoch. */
  datatype BatchLosses = BatchLosses(
    ganLoss: (int, int) -> real, pixelLoss: (int, int) -> real,
    realLoss: (int, int) -> real, fakeLoss: (int, int) -> real)

  function GeneratorLossAt(l: BatchLosses, epoch: int, i: int): real
  {
    GeneratorLoss(l.ganLoss(epoch, i), l.pixelLoss(epoch, i))
  }

  function DiscriminatorLossAt(l: BatchLosses, epoch: int, i: int): real
  {
    DiscriminatorLoss(l.realLoss(epoch, i), l.fakeLoss(epoch, i))
  }

  /** `avg_loss_G` after the first `n` batches of an epoch. */
  function GeneratorSum(l: BatchLosses, epoch: int, n: nat): real
  {
    if n == 0 then 0.0 else GeneratorSum(l, epoch, n - 1) + GeneratorLossAt(l, epoch, n - 1)
  }

  /** `avg_loss_D` after the first `n` batches of an epoch. */
  function DiscriminatorSum(l: BatchLosses, epoch: int, n: nat): real
  {
    if n == 0 then 0.0 else DiscriminatorSum(l, epoch, n - 1) + DiscriminatorLossAt(l, epoch, n - 1)
  }

  /** `len(range(args.epoch, args.n_epochs))`. */
  function EpochCount(startEpoch: int, nEpochs: int): (c: nat)
    ensures c == 0 <==> startEpoch >= nEpochs
    ensures c > 0 ==> startEpoch + c == nEpochs
  {
    if startEpoch < nEpochs then nEpochs - startEpoch else 0
  }

  /** The batch numbers among `first`, ..., `first + count - 1` at which a
      sample is saved, in order. */
  function SampledBatches(first: int, count: nat, interval: int): seq<int>
    requires interval != 0
  {
    if count == 0 then []
    else
      var init, done := SampledBatches(first, count - 1, interval), first + count - 1;
      if done % interval == 0 then init + [done] else init
  }

  /** A sample is saved exactly at the batch numbers that are multiples of
      the interval, each once and in increasing order. */
  lemma {:induction false} SampledBatchesExactly(first: int, count: nat, interval: int)
    requires interval != 0
    ensures forall d :: d in SampledBatches(first, count, interval) <==>
      first <= d < first + count && d % interval == 0
    ensures forall a, b :: 0 <= a < b < |SampledBatches(first, count, interval)| ==>
      SampledBatches(first, count, interval)[a] < SampledBatches(first, count, interval)[b]
  {
    if count > 0 {
      var init := SampledBatches(first, count - 1, interval);
      SampledBatchesExactly(first, count - 1, interval);
      forall a | 0 <= a < |init| ensures init[a] < first + count - 1 {
        assert init[a] in init;
      }
    }
  }

  /** One progress line: `batches_done` and `batches_left`. */
  datatype Progress = Progress(batchesDone: int, batchesLeft: int)

  /** How the script ends: the metrics logged after the loops, with the
      step of the last epoch, or the error that stops it.  An empty
      training, validation or test set makes its shuffling `DataLoader`
      refuse to be built, before any epoch; with no epoch to run `avg_loss_G` is never bound; a
      sample interval of 0 fails at the first batch. */
  datatype Outcome =
    | Logged(step: int, lossG: real, lossD: real)
    | NoEpochRan
    | EmptyLoader
    | ZeroSampleInterval

  /** The loader construction and the epoch and batch loops of the script;
      `batches`, `valBatches` and `testBatches` are the lengths of the
      training, validation and test loaders. */
  method TrainLoop(startEpoch: int, nEpochs: int, batches: nat, valBatches: nat, testBatches: nat,
                   sampleInterval: int, losses: BatchLosses)
    returns (progress: seq<Progress>, samples: seq<int>, outcome: Outcome)
    ensures outcome == EmptyLoader <==> batches == 0 || valBatches == 0 || testBatches == 0
    ensures outcome == EmptyLoader ==> progress == [] && samples == []
    ensures outcome == NoEpochRan <==> batches > 0 && valBatches > 0 && testBatches > 0 && startEpoch >= nEpochs
    ensures outcome == ZeroSampleInterval <==>
      batches > 0 && valBatches > 0 && testBatches > 0 && startEpoch < nEpochs && sampleInterval == 0
    ensures outcome == ZeroSampleInterval ==>
      progress == [Progress(startEpoch * batches, nEpochs * batches - startEpoch * batches)] && samples == []
    ensures outcome != ZeroSampleInterval && outcome != EmptyLoader ==>
      |progress| == EpochCount(startEpoch, nEpochs) * batches &&
      (forall t :: 0 <= t < |progress| ==>
        progress[t] == Progress(startEpoch * batches + t, nEpochs * batches - (startEpoch * batches + t))) &&
      (sampleInterval != 0 ==> samples == SampledBatches(startEpoch * batches, |progress|, sampleInterval))
    ensures forall t :: 0 <= t < |progress| ==>
      progress[t].batchesDone + progress[t].batchesLeft == nEpochs * batches && progress[t].batchesLeft >= 1
    ensures outcome.Logged? ==>
      outcome.step == nEpochs - 1 &&
      outcome.lossG == GeneratorSum(losses, nEpochs - 1, batches) / batches as real &&
      outcome.lossD == DiscriminatorSum(losses, nEpochs - 1, batches) / batches as real
  {
    progress, samples := [], [];
    if batches == 0 || valBatches == 0 || testBatches == 0 {
      outcome := EmptyLoader;
      return;
    }
    var avgLossG, avgLossD := 0.0, 0.0;
    var ran := false;
    var epoch := startEpoch;
    while epoch < nEpochs
      invariant startEpoch <= epoch && (epoch == startEpoch || epoch <= nEpochs)
      invariant ran <==> epoch > startEpoch
      invariant |progress| == (epoch - startEpoch) * batches
      invariant forall t :: 0 <= t < |progress| ==>
        progress[t] == Progress(startEpoch * batches + t, nEpochs * batches - (startEpoch * batches + t))
      invariant forall t :: 0 <= t < |progress| ==> progress[t].batchesLeft >= 1
      invariant sampleInterval != 0 ==> samples == SampledBatches(startEpoch * batches, |progress|, sampleInterval)
      invariant sampleInterval == 0 ==> samples == [] && (batches == 0 || epoch == startEpoch)
      invariant ran ==>
        avgLossG == GeneratorSum(losses, epoch - 1, batches) &&
        avgLossD == DiscriminatorSum(losses, epoch - 1, batches)
    {
      avgLossG, avgLossD := 0.0, 0.0;
      var i := 0;
      while i < batches
        invariant 0 <= i <= batches
        invariant |progress| == (epoch - startEpoch) * batches + i
        invariant forall t :: 0 <= t < |progress| ==>
          progress[t] == Progress(startEpoch * batches + t, nEpochs * batches - (startEpoch * batches + t))
        invariant forall t :: 0 <= t < |progress| ==> progress[t].batchesLeft >= 1
        invariant sampleInterval != 0 ==> samples == SampledBatches(startEpoch * batches, |progress|, sampleInterval)
        invariant sampleInterval == 0 ==> samples == [] && (batches == 0 || (epoch == startEpoch && i == 0))
        invariant avgLossG == GeneratorSum(losses, epoch, i)
        invariant avgLossD == DiscriminatorSum(losses, epoch, i)
      {
        var lossG := GeneratorLoss(losses.ganLoss(epoch, i), losses.pixelLoss(epoch, i));
        avgLossG := avgLossG + lossG;
        var lossD := DiscriminatorLoss(losses.realLoss(epoch, i), losses.fakeLoss(epoch, i));
        avgLossD := avgLossD + lossD;
        var batchesDone := epoch * batches + i;
        var batchesLeft := nEpochs * batches - batchesDone;
        assert batchesDone == startEpoch * batches + |progress| by {
          assert epoch * batches == startEpoch * batches + (epoch - startEpoch) * batches;
        }
        BatchesLeftPositive(nEpochs, epoch, batches, i);
        progress := progress + [Progress(batchesDone, batchesLeft)];
        if sampleInterval == 0 {
          outcome := ZeroSampleInterval;
          return;
        }
        if batchesDone % sampleInterval == 0 {
          samples := samples + [batchesDone];
        }
        i := i + 1;
      }
      assert (epoch + 1 - startEpoch) * batches == (epoch - startEpoch) * batches + batches;
      ran := true;
      epoch := epoch + 1;
    }
    if !ran {
      outcome := NoEpochRan;
    } else {
      outcome := Logged(epoch - 1, avgLossG / batches as real, avgLossD / batches as real);
    }
  }

  /** Inside the loop at least one batch is left: the current batch. */
  lemma BatchesLeftPositive(nEpochs: int, epoch: int, batches: nat, i: int)
    requires epoch < nEpochs && 0 <= i < batches
    ensures nEpochs * batches - (epoch * batches + i) >= 1
  {
    var k := nEpochs - epoch - 1;
    assert k * batches >= 0;
    assert nEpochs * batches == epoch * batches + k * batches + batches;
  }

  /** The generator loss sum of an epoch lies between `n * lo` and `n * hi`
      when every batch loss does. */
  lemma {:induction false} GeneratorSumBetween(l: BatchLosses, epoch: int, n: nat, lo: real, hi: real)
    requires forall i :: 0 <= i < n ==> lo <= GeneratorLossAt(l, epoch, i) <= hi
    ensures lo * n as real <= GeneratorSum(l, epoch, n) <= hi * n as real
  {
    if n > 0 {
      GeneratorSumBetween(l, epoch, n - 1, lo, hi);
      assert lo * n as real == lo * (n - 1) as real + lo;
      assert hi * n as real == hi * (n - 1) as real + hi;
    }
  }

  /** The logged generator loss is the mean over the batches of the last
      epoch only: it lies between the smallest and the largest batch loss
      of that epoch, whatever the earlier epochs did. */
  lemma LoggedGeneratorLoss(l: BatchLosses, lastEpoch: int, batches: nat, lo: real, hi: real)
    requires batches > 0
    requires forall i :: 0 <= i < batches ==> lo <= GeneratorLossAt(l, lastEpoch, i) <= hi
    ensures lo <= GeneratorSum(l, lastEpoch, batches) / batches as real <= hi
  {
    GeneratorSumBetween(l, lastEpoch, batches, lo, hi);
    Meters.DivideBounds(lo, GeneratorSum(l, lastEpoch, batches), hi, batches as real);
  }
}
