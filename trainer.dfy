/** Per-epoch loss bookkeeping of `Trainer` (src/rd/utils.py).  The network,
    the criterion and the optimiser are not modelled: an epoch is the list
    of its batches, each given by the criterion's loss on the batch and the
    batch size `input_gray.size(0)`. */
module Training {
  import opened Meters

  /** Batches come from a DataLoader, which never yields an empty batch. */
  predicate Batches(batches: seq<Observation>)
  {
    PositiveWeights(batches)
  }

  class Trainer {
    var trainLosses: seq<real>
    var valLosses: seq<real>

    constructor ()
      ensures trainLosses == [] && valLosses == []
    {
      trainLosses, valLosses := [], [];
    }

    /** `train`: one epoch through the loader, feeding each batch's loss to
        a fresh meter weighted by the batch size, then one entry, the
        meter's average, appended to `train_losses`. */
    method Train(batches: seq<Observation>)
      requires Batches(batches)
      modifies this
      ensures trainLosses == old(trainLosses) + [Mean(batches)]
      ensures valLosses == old(valLosses)
    {
      var loss := MeterAverage(batches);
      trainLosses := trainLosses + [loss];
    }

    /** `validate`: the same pass, appended to `val_losses` and returned. */
    method Validate(batches: seq<Observation>) returns (loss: real)
      requires Batches(batches)
      modifies this
      ensures loss == Mean(batches)
      ensures valLosses == old(valLosses) + [loss]
      ensures trainLosses == old(trainLosses)
    {
      loss := MeterAverage(batches);
      valLosses := valLosses + [loss];
    }
  }

  /** The loop shared by `train` and `validate`: a fresh `AverageMeter`
      updated once per batch; its final average is the weighted mean of the
      batch losses, or 0 for an empty loader. */
  method MeterAverage(batches: seq<Observation>) returns (avg: real)
    requires Batches(batches)
    ensures avg == Mean(batches)
  {
    var losses := new AverageMeter();
    var i := 0;
    while i < |batches|
      invariant 0 <= i <= |batches|
      invariant losses.Valid()
      invariant losses.sum == Total(batches[..i]) && losses.count == Count(batches[..i])
      invariant losses.count >= i
      invariant i == 0 ==> losses.avg == 0.0
    {
      assert batches[..i + 1][..i] == batches[..i];
      var ok := losses.Update(batches[i].val, batches[i].n);
      i := i + 1;
    }
    assert batches[..i] == batches;
    avg := losses.avg;
  }
}
