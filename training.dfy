/**
 * The epoch loops of the training script: the size-weighted loss accumulation of the training
 * and validation passes, and the per-epoch sequence train, validate, checkpoint.
 *
 * The loss of each batch (`loss.item()`) and the batch size (`images.size(0)`) come from the
 * network and the loader and are inputs here.
 */
module Training {
  import opened Options
  import opened Quotients

  /** One batch as the loop sees it: its scalar loss and its number of images. */
  datatype Batch = Batch(loss: real, size: nat)

  /** `running_loss / len(dataset)`: a value, or the ZeroDivisionError of an empty dataset. */
  datatype Average = Average(value: real) | ZeroDivision

  /** Sum over the batches of loss times batch size. */
  function WeightedSum(batches: seq<Batch>): real {
    if batches == [] then 0.0
    else WeightedSum(batches[..|batches| - 1]) + batches[|batches| - 1].loss * batches[|batches| - 1].size as real
  }

  /** Total number of images in the batches. */
  function TotalSize(batches: seq<Batch>): nat {
    if batches == [] then 0 else TotalSize(batches[..|batches| - 1]) + batches[|batches| - 1].size
  }

  /** One pass: `running_loss += loss * batch_size` over the batches, then divide by the dataset length. */
  method AccumulateLoss(batches: seq<Batch>, datasetLen: nat) returns (r: Average)
    ensures datasetLen == 0 ==> r == ZeroDivision
    ensures datasetLen > 0 ==> r == Average(WeightedSum(batches) / datasetLen as real)
  {
    var running := 0.0;
    for i := 0 to |batches|
      invariant running == WeightedSum(batches[..i])
    {
      assert batches[..i + 1][..i] == batches[..i];
      running := running + batches[i].loss * batches[i].size as real;
    }
    assert batches[..|batches|] == batches;
    if datasetLen == 0 {
      r := ZeroDivision;
    } else {
      r := Average(running / datasetLen as real);
    }
  }

  /** With every batch loss at least lo, the weighted sum is at least lo times the total size. */
  lemma {:induction false} WeightedSumAtLeast(batches: seq<Batch>, lo: real)
    requires forall i :: 0 <= i < |batches| ==> lo <= batches[i].loss
    ensures lo * TotalSize(batches) as real <= WeightedSum(batches)
  {
    if batches != [] {
      var pre, b := batches[..|batches| - 1], batches[|batches| - 1];
      WeightedSumAtLeast(pre, lo);
      StepBound(lo, TotalSize(pre) as real, b.size as real, WeightedSum(pre), b.loss);
    }
  }

  /** With every batch loss at most hi, the weighted sum is at most hi times the total size. */
  lemma {:induction false} WeightedSumAtMost(batches: seq<Batch>, hi: real)
    requires forall i :: 0 <= i < |batches| ==> batches[i].loss <= hi
    ensures WeightedSum(batches) <= hi * TotalSize(batches) as real
  {
    if batches != [] {
      var pre, b := batches[..|batches| - 1], batches[|batches| - 1];
      WeightedSumAtMost(pre, hi);
      StepBound(-hi, TotalSize(pre) as real, b.size as real, -WeightedSum(pre), -b.loss);
    }
  }

  /** The arithmetic of one accumulation step: a bound c * t <= w on the sum so far and c <= x
      on the next loss give c * (t + n) <= w + x * n. */
  lemma StepBound(c: real, t: real, n: real, w: real, x: real)
    requires c * t <= w && c <= x && 0.0 <= n
    ensures c * (t + n) <= w + x * n
    ensures -c * (t + n) >= -w + -x * n
  {
    assert c * n <= x * n;
  }

  /** When the batch sizes add up to the dataset length, the epoch loss lies between the smallest
      and the largest batch loss. */
  lemma EpochLossBounds(batches: seq<Batch>, datasetLen: nat, lo: real, hi: real)
    requires datasetLen > 0 && TotalSize(batches) == datasetLen
    requires forall i :: 0 <= i < |batches| ==> lo <= batches[i].loss <= hi
    ensures lo <= WeightedSum(batches) / datasetLen as real <= hi
  {
    WeightedSumAtLeast(batches, lo);
    WeightedSumAtMost(batches, hi);
    QuotientBounds(WeightedSum(batches), datasetLen as real, lo, hi);
  }

  /** A constant batch loss c over batches that cover the dataset gives epoch loss c. */
  lemma ConstantLoss(batches: seq<Batch>, datasetLen: nat, c: real)
    requires datasetLen > 0 && TotalSize(batches) == datasetLen
    requires forall i :: 0 <= i < |batches| ==> batches[i].loss == c
    ensures WeightedSum(batches) / datasetLen as real == c
  {
    EpochLossBounds(batches, datasetLen, c, c);
  }

  /** The batches of one epoch: the training pass and the validation pass. */
  datatype EpochBatches = EpochBatches(train: seq<Batch>, val: seq<Batch>)

  /** The two losses printed for an epoch, numbered from 1 as the script prints them. */
  datatype EpochMetrics = EpochMetrics(epoch: nat, trainLoss: real, valLoss: real)

  /** Why a run stopped: a division by an empty dataset, in the given epoch. */
  datatype Abort = TrainDivisionByZero(epoch: nat) | ValDivisionByZero(epoch: nat)

  /** What a run leaves behind: the metrics of each finished epoch, the epoch numbers of the
      checkpoints saved (`bisenetv1_model_e{n}.pth`), and the error that ended it, if any. */
  datatype Report = Report(metrics: seq<EpochMetrics>, checkpoints: seq<nat>, abort: Option<Abort>)

  const NumEpochs: nat := 10

  /** The report after running the given epochs. */
  function Run(epochs: seq<EpochBatches>, trainLen: nat, valLen: nat): Report {
    if epochs == [] then Report([], [], None)
    else
      var prev := Run(epochs[..|epochs| - 1], trainLen, valLen);
      if prev.abort.Some? then prev
      else EpochStep(prev, |epochs|, epochs[|epochs| - 1], trainLen, valLen)
  }

  /** One more epoch, numbered `epoch`: train, validate, save. */
  function EpochStep(prev: Report, epoch: nat, e: EpochBatches, trainLen: nat, valLen: nat): Report {
    if trainLen == 0 then prev.(abort := Some(TrainDivisionByZero(epoch)))
    else if valLen == 0 then prev.(abort := Some(ValDivisionByZero(epoch)))
    else
      Report(prev.metrics + [EpochMetrics(epoch, WeightedSum(e.train) / trainLen as real, WeightedSum(e.val) / valLen as real)],
             prev.checkpoints + [epoch],
             None)
  }

  /** The `for epoch in range(num_epochs)` loop. An error ends the run at once. */
  method Train(epochs: seq<EpochBatches>, trainLen: nat, valLen: nat) returns (report: Report)
    requires |epochs| == NumEpochs
    ensures report == Run(epochs, trainLen, valLen)
  {
    report := Report([], [], None);
    var epoch := 0;
    while epoch < |epochs|
      invariant 0 <= epoch <= |epochs|
      invariant report == Run(epochs[..epoch], trainLen, valLen)
      invariant report.abort == None
    {
      assert epochs[..epoch + 1][..epoch] == epochs[..epoch];
      var trainLoss := AccumulateLoss(epochs[epoch].train, trainLen);
      if trainLoss.ZeroDivision? {
        report := report.(abort := Some(TrainDivisionByZero(epoch + 1)));
        AbortIsFinal(epochs, epoch + 1, trainLen, valLen);
        return;
      }
      var valLoss := AccumulateLoss(epochs[epoch].val, valLen);
      if valLoss.ZeroDivision? {
        report := report.(abort := Some(ValDivisionByZero(epoch + 1)));
        AbortIsFinal(epochs, epoch + 1, trainLen, valLen);
        return;
      }
      report := Report(report.metrics + [EpochMetrics(epoch + 1, trainLoss.value, valLoss.value)],
                       report.checkpoints + [epoch + 1],
                       None);
      epoch := epoch + 1;
    }
    assert epochs[..|epochs|] == epochs;
  }

  /** Once an epoch has failed, later epochs change nothing. */
  lemma {:induction false} AbortIsFinal(epochs: seq<EpochBatches>, e: nat, trainLen: nat, valLen: nat)
    requires e <= |epochs|
    requires Run(epochs[..e], trainLen, valLen).abort.Some?
    ensures Run(epochs, trainLen, valLen) == Run(epochs[..e], trainLen, valLen)
    decreases |epochs|
  {
    if e == |epochs| {
      assert epochs[..e] == epochs;
    } else {
      var pre := epochs[..|epochs| - 1];
      assert pre[..e] == epochs[..e];
      AbortIsFinal(pre, e, trainLen, valLen);
    }
  }

  /** With both datasets non-empty every epoch finishes: epoch n records its training and validation
      losses (weighted sums over dataset lengths) and saves exactly one checkpoint, numbered n. */
  lemma {:induction false} RunCompletes(epochs: seq<EpochBatches>, trainLen: nat, valLen: nat)
    requires trainLen > 0 && valLen > 0
    ensures var r := Run(epochs, trainLen, valLen);
      && r.abort == None
      && |r.metrics| == |r.checkpoints| == |epochs|
      && (forall i :: 0 <= i < |epochs| ==> r.checkpoints[i] == i + 1)
      && (forall i :: 0 <= i < |epochs| ==>
            r.metrics[i] == EpochMetrics(i + 1, WeightedSum(epochs[i].train) / trainLen as real,
                                                WeightedSum(epochs[i].val) / valLen as real))
  {
    if epochs != [] {
      var pre := epochs[..|epochs| - 1];
      RunCompletes(pre, trainLen, valLen);
      assert forall i :: 0 <= i < |pre| ==> pre[i] == epochs[i];
    }
  }

  /** An empty training or validation set ends the run in its first epoch, before any checkpoint. */
  lemma RunAbortsOnEmptyDataset(epochs: seq<EpochBatches>, trainLen: nat, valLen: nat)
    requires |epochs| > 0 && (trainLen == 0 || valLen == 0)
    ensures Run(epochs, trainLen, valLen)
      == Report([], [], Some(if trainLen == 0 then TrainDivisionByZero(1) else ValDivisionByZero(1)))
  {
    var first := epochs[..1];
    assert first[..0] == [];
    AbortIsFinal(epochs, 1, trainLen, valLen);
  }
}
