/** The epoch loop of the autoencoder training scripts
    (src/rd/scripts/train_autoencoder.py and src/rd/train.py): after each
    epoch the validation loss is compared with the best loss so far; a
    strictly worse epoch raises the patience counter, any other epoch resets
    it, becomes the new best and saves a checkpoint; the loop stops once the
    patience exceeds `early_stop`, or after the last epoch.  Training and
    validation themselves are abstracted to the validation loss each epoch
    reports (`Trainer.validate`). */
module EarlyStopping {

  /** The best validation loss so far: `np.inf` before the first epoch. */
  datatype Best = Infinity | Finite(loss: real)

  /** `loss > best`, with every real below infinity. */
  predicate Exceeds(loss: real, best: Best)
  {
    best.Finite? && loss > best.loss
  }

  /** `a <= b` on best losses. */
  predicate AtMost(a: Best, b: Best)
  {
    b.Infinity? || (a.Finite? && a.loss <= b.loss)
  }

  /** The two variables the loop keeps: `vald_loss` and `patience`. */
  datatype StopState = StopState(best: Best, patience: nat)

  /** `vald_loss = np.inf`, `patience = 0`. */
  const Initial := StopState(Infinity, 0)

  /** The decision after one epoch with validation loss `loss`. */
  function Step(s: StopState, loss: real): (r: StopState)
    ensures Exceeds(loss, s.best) ==> r.patience == s.patience + 1
    ensures !Exceeds(loss, s.best) ==> r.patience == 0
    ensures AtMost(r.best, s.best) && AtMost(r.best, Finite(loss))
    ensures r.best == s.best || r.best == Finite(loss)
  {
    if Exceeds(loss, s.best) then StopState(s.best, s.patience + 1)
    else StopState(Finite(loss), 0)
  }

  /** The state after the epochs whose validation losses are `losses`. */
  function After(losses: seq<real>): StopState
  {
    if losses == [] then Initial
    else Step(After(losses[..|losses| - 1]), losses[|losses| - 1])
  }

  /** The epochs (numbered from 0) at which a checkpoint was saved: those
      that were not strictly worse than the best before them. */
  function Saved(losses: seq<real>): seq<nat>
  {
    if losses == [] then []
    else
      var init := losses[..|losses| - 1];
      Saved(init) + if Exceeds(losses[|losses| - 1], After(init).best) then [] else [|losses| - 1]
  }

  /** The state at the end of the epoch numbered `e`. */
  function AfterEpoch(losses: seq<real>, e: nat): StopState
    requires e < |losses|
  {
    After(losses[..e + 1])
  }

  /** The loop leaves after the epoch numbered `epoch` when this holds. */
  predicate Stops(s: StopState, epoch: int, epochs: int, earlyStop: int)
  {
    s.patience > earlyStop || epoch == epochs - 1
  }

  // ---------------------------------------------------------------------
  // what the state means

  /** After at least one epoch the best loss is the minimum of the
      validation losses seen so far. */
  lemma {:induction false} BestIsMinimum(losses: seq<real>)
    requires losses != []
    ensures After(losses).best.Finite?
    ensures After(losses).best.loss in losses
    ensures forall i :: 0 <= i < |losses| ==> After(losses).best.loss <= losses[i]
  {
    var init := losses[..|losses| - 1];
    if init != [] {
      BestIsMinimum(init);
    }
  }

  /** The best loss never increases from one epoch to the next. */
  lemma BestNeverIncreases(losses: seq<real>, loss: real)
    ensures AtMost(After(losses + [loss]).best, After(losses).best)
  {
    assert (losses + [loss])[..|losses|] == losses;
  }

  /** The patience counts the epochs since the last one that was not worse:
      the last `patience` losses all exceed the best one, and the loss just
      before them is the best one. */
  lemma {:induction false} PatienceCountsWorseEpochs(losses: seq<real>)
    ensures After(losses).patience <= |losses|
    ensures losses != [] ==> After(losses).patience < |losses|
    ensures forall j :: |losses| - After(losses).patience <= j < |losses| ==>
      Exceeds(losses[j], After(losses).best)
    ensures losses != [] ==>
      After(losses).best == Finite(losses[|losses| - 1 - After(losses).patience])
  {
    if losses != [] {
      var init := losses[..|losses| - 1];
      PatienceCountsWorseEpochs(init);
      assert forall j :: 0 <= j < |init| ==> init[j] == losses[j];
    }
  }

  /** The checkpoint on disk always holds the best epoch: after at least one
      epoch a checkpoint exists, and the last one saved is an epoch whose
      loss is the best loss.  Checkpoints are saved in increasing epoch
      order. */
  lemma {:induction false} CheckpointHoldsBest(losses: seq<real>)
    ensures forall k :: 0 <= k < |Saved(losses)| ==> Saved(losses)[k] < |losses|
    ensures forall k, l :: 0 <= k < l < |Saved(losses)| ==> Saved(losses)[k] < Saved(losses)[l]
    ensures losses != [] ==>
      (Saved(losses) != [] && After(losses).best == Finite(losses[Saved(losses)[|Saved(losses)| - 1]]))
  {
    if losses != [] {
      var init := losses[..|losses| - 1];
      CheckpointHoldsBest(init);
      assert forall j :: 0 <= j < |init| ==> init[j] == losses[j];
    }
  }

  // ---------------------------------------------------------------------
  // the two loops

  /** The loop of src/rd/scripts/train_autoencoder.py: `valLosses[e]` is the
      validation loss epoch `e` would report.  It returns the final state,
      the number of epochs run and the epochs at which a checkpoint was
      saved. */
  method AutoencoderEpochs(epochs: int, earlyStop: int, valLosses: seq<real>)
    returns (state: StopState, epochsRun: nat, saved: seq<nat>)
    requires epochs <= |valLosses|
    ensures epochsRun <= if epochs < 0 then 0 else epochs
    ensures state == After(valLosses[..epochsRun]) && saved == Saved(valLosses[..epochsRun])
    ensures epochs >= 1 ==> epochsRun >= 1 && Stops(state, epochsRun - 1, epochs, earlyStop)
    ensures forall e :: 0 <= e < epochsRun - 1 ==> !Stops(AfterEpoch(valLosses, e), e, epochs, earlyStop)
  {
    state, epochsRun, saved := Initial, 0, [];
    var epoch := 0;
    while epoch < epochs
      invariant 0 <= epoch <= if epochs < 0 then 0 else epochs
      invariant epochs >= 1 ==> epoch < epochs
      invariant epochsRun == epoch
      invariant state == After(valLosses[..epoch]) && saved == Saved(valLosses[..epoch])
      invariant forall e :: 0 <= e < epoch ==> !Stops(AfterEpoch(valLosses, e), e, epochs, earlyStop)
    {
      var epochValidLoss := valLosses[epoch];
      assert valLosses[..epoch + 1][..epoch] == valLosses[..epoch];
      if Exceeds(epochValidLoss, state.best) {
        state := state.(patience := state.patience + 1);
      } else {
        state := StopState(Finite(epochValidLoss), 0);
        saved := saved + [epoch];
      }
      epochsRun := epoch + 1;
      if state.patience > earlyStop || epoch == epochs - 1 {
        return;
      }
      epoch := epoch + 1;
    }
  }

  /** The loop of src/rd/train.py: the same decisions, and on the stopping
      epoch the current model is logged to the tracking server.  `logged`
      lists the epochs whose model was logged. */
  method TrainEpochs(epochs: int, earlyStop: int, valLosses: seq<real>)
    returns (state: StopState, epochsRun: nat, saved: seq<nat>, logged: seq<nat>)
    requires epochs <= |valLosses|
    ensures epochsRun <= if epochs < 0 then 0 else epochs
    ensures state == After(valLosses[..epochsRun]) && saved == Saved(valLosses[..epochsRun])
    ensures epochs >= 1 ==> epochsRun >= 1 && Stops(state, epochsRun - 1, epochs, earlyStop)
    ensures forall e :: 0 <= e < epochsRun - 1 ==> !Stops(AfterEpoch(valLosses, e), e, epochs, earlyStop)
    ensures logged == if epochs >= 1 then [epochsRun - 1] else []
  {
    state, epochsRun, saved, logged := Initial, 0, [], [];
    var epoch := 0;
    while epoch < epochs
      invariant 0 <= epoch <= if epochs < 0 then 0 else epochs
      invariant epochs >= 1 ==> epoch < epochs
      invariant epochsRun == epoch && logged == []
      invariant state == After(valLosses[..epoch]) && saved == Saved(valLosses[..epoch])
      invariant forall e :: 0 <= e < epoch ==> !Stops(AfterEpoch(valLosses, e), e, epochs, earlyStop)
    {
      var epochValidLoss := valLosses[epoch];
      assert valLosses[..epoch + 1][..epoch] == valLosses[..epoch];
      if Exceeds(epochValidLoss, state.best) {
        state := state.(patience := state.patience + 1);
      } else {
        state := StopState(Finite(epochValidLoss), 0);
        saved := saved + [epoch];
      }
      epochsRun := epoch + 1;
      if state.patience > earlyStop || epoch == epochs - 1 {
        logged := logged + [epoch];
        return;
      }
      epoch := epoch + 1;
    }
  }

  // ---------------------------------------------------------------------
  // which model src/rd/train.py logs

  /** When the loop of src/rd/train.py stops because the patience ran out,
      the epoch whose model it logs is strictly worse than the best epoch:
      the logged model is not the best one, although the code says it logs
      only the best model. */
  lemma LoggedModelWorseThanBest(losses: seq<real>)
    requires losses != [] && After(losses).patience > 0
    ensures Exceeds(losses[|losses| - 1], After(losses).best)
  {
    PatienceCountsWorseEpochs(losses);
  }

  /** A concrete run: with `early_stop` 0 and validation losses 1.0 then
      2.0, the loop stops after epoch 1 and logs that epoch's model (loss
      2.0), while the best checkpoint is epoch 0 (loss 1.0). */
  lemma LoggedModelCounterexample()
    ensures After([1.0, 2.0]) == StopState(Finite(1.0), 1)
    ensures Stops(AfterEpoch([1.0, 2.0], 1), 1, 3, 0)
    ensures Saved([1.0, 2.0]) == [0]
  {
    assert [1.0, 2.0][..1] == [1.0];
    assert [1.0][..0] == [];
    assert [1.0, 2.0][..2] == [1.0, 2.0];
  }

  /** The loop of src/rd/train.py as its comment intends it: on the stopping
      epoch the best checkpoint, not the current model, is logged. */
  method TrainEpochsLoggingBest(epochs: int, earlyStop: int, valLosses: seq<real>)
    returns (state: StopState, epochsRun: nat, saved: seq<nat>, logged: seq<nat>)
    requires epochs <= |valLosses|
    ensures epochsRun <= if epochs < 0 then 0 else epochs
    ensures state == After(valLosses[..epochsRun]) && saved == Saved(valLosses[..epochsRun])
    ensures epochs >= 1 ==> epochsRun >= 1 && Stops(state, epochsRun - 1, epochs, earlyStop)
    ensures epochs < 1 ==> logged == []
    ensures epochs >= 1 ==>
      |logged| == 1 && logged[0] < epochsRun && state.best == Finite(valLosses[logged[0]])
  {
    state, epochsRun, saved := AutoencoderEpochs(epochs, earlyStop, valLosses);
    logged := [];
    if epochs >= 1 {
      CheckpointHoldsBest(valLosses[..epochsRun]);
      logged := [saved[|saved| - 1]];
    }
  }
}
