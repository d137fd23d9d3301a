/**
 * OHEMLoss.forward, the ratio-based hard-example selection.
 *
 * The per-pixel cross-entropy (`F.cross_entropy(..., reduction='none')`) is taken as a given
 * sequence of reals. forward counts the non-ignored target entries (num_pos), selects
 * num_neg = min(int(ratio * num_pos), len(loss) - num_pos) of the largest losses and averages them.
 */
module Ohem {
  import opened Selection

  /** `OHEMLoss(num_classes, ratio=3, ignore_index=-100)`. */
  datatype OhemLoss = OhemLoss(numClasses: nat, ratio: real := 3.0, ignoreIndex: int := -100)

  /** What forward yields: a scalar loss; the NaN that `mean()` of an empty selection gives;
      or the error `topk` raises on a negative count. */
  datatype LossResult = Loss(value: real) | NotANumber | TopkOutOfRange(k: int)

  /** The number of whole units in a non-negative real. */
  function WholePart(x: real): (n: nat)
    requires 0.0 <= x
    ensures n as real <= x < n as real + 1.0
    decreases x.Floor
  {
    if x < 1.0 then 0 else 1 + WholePart(x - 1.0)
  }

  /** Python's `int()` on a float: truncation toward zero. */
  function Trunc(x: real): (n: int)
    ensures 0.0 <= x ==> 0 <= n && n as real <= x < n as real + 1.0
    ensures x < 0.0 ==> n <= 0 && n as real - 1.0 < x <= n as real
  {
    if x >= 0.0 then WholePart(x) else -(WholePart(-x) as int)
  }

  /** num_pos: how many target entries differ from `ignoreIndex`. */
  function CountNotIgnored(target: seq<int>, ignoreIndex: int): (n: nat)
    ensures n == |target| - multiset(target)[ignoreIndex]
    ensures n <= |target|
  {
    if target == [] then 0
    else
      assert target == [target[0]] + target[1..];
      (if target[0] != ignoreIndex then 1 else 0) + CountNotIgnored(target[1..], ignoreIndex)
  }

  /** num_neg. For a non-negative ratio it is the largest integer that is at most both
      ratio * num_pos and the number of entries left over after num_pos. */
  function SelectionCount(ratio: real, numPos: nat, numEntries: nat): (k: int)
    ensures k <= numEntries - numPos
    ensures 0.0 <= ratio ==> k as real <= ratio * numPos as real
    ensures 0.0 <= ratio ==> k == numEntries - numPos || ratio * numPos as real < (k + 1) as real
    ensures 0.0 <= ratio && numPos <= numEntries ==> 0 <= k <= numEntries
    ensures numPos == 0 ==> k == 0
  {
    var byRatio := Trunc(ratio * numPos as real);
    if byRatio <= numEntries - numPos then byRatio else numEntries - numPos
  }

  /** forward(input, target), given the per-pixel loss `loss` that cross_entropy computed. */
  function Forward(c: OhemLoss, loss: seq<real>, target: seq<int>): LossResult {
    var numPos := CountNotIgnored(target, c.ignoreIndex);
    var numNeg := SelectionCount(c.ratio, numPos, |loss|);
    if numNeg < 0 then TopkOutOfRange(numNeg)
    else if numNeg == 0 then NotANumber
    else Loss(Mean(TopK(loss, numNeg)))
  }

  /** With one loss entry per target entry and a non-negative ratio, topk is never asked for a
      negative count. */
  lemma ForwardNeverOutOfRange(c: OhemLoss, loss: seq<real>, target: seq<int>)
    requires |loss| == |target|
    requires 0.0 <= c.ratio
    ensures !Forward(c, loss, target).TopkOutOfRange?
  {
    ForwardByCount(c, loss, target);
  }

  /** Which of the three outcomes forward takes depends only on the sign of num_neg. */
  lemma ForwardByCount(c: OhemLoss, loss: seq<real>, target: seq<int>)
    ensures var k := SelectionCount(c.ratio, CountNotIgnored(target, c.ignoreIndex), |loss|);
      && (Forward(c, loss, target).TopkOutOfRange? <==> k < 0)
      && (Forward(c, loss, target).NotANumber? <==> k == 0)
      && (Forward(c, loss, target).Loss? <==> 0 < k)
  {
  }

  /** For a non-negative ratio and num_pos <= len(loss), num_neg is positive exactly when
      ratio * num_pos reaches 1 and some entry is left over; so forward yields a number in exactly
      that case and NaN otherwise. */
  lemma SelectionCountPositive(ratio: real, numPos: nat, numEntries: nat)
    requires 0.0 <= ratio && numPos <= numEntries
    ensures 0 < SelectionCount(ratio, numPos, numEntries) <==> 1.0 <= ratio * numPos as real && numPos < numEntries
  {
    var x := ratio * numPos as real;
    assert 0.0 <= x;
    var t := Trunc(x);
    assert 1.0 <= x ==> 1 <= t;
    assert t as real <= x;
  }

  /** With one loss entry per target entry and a non-negative ratio, forward yields a loss exactly
      when ratio * num_pos reaches 1 and some target entry is ignored, and NaN in every other case. */
  lemma ForwardOutcome(c: OhemLoss, loss: seq<real>, target: seq<int>)
    requires |loss| == |target|
    requires 0.0 <= c.ratio
    ensures var numPos := CountNotIgnored(target, c.ignoreIndex);
      && (Forward(c, loss, target).Loss? <==> 1.0 <= c.ratio * numPos as real && multiset(target)[c.ignoreIndex] > 0)
      && (!Forward(c, loss, target).Loss? ==> Forward(c, loss, target) == NotANumber)
  {
    PerPixelCountPositive(c.ratio, loss, target, c.ignoreIndex);
    ForwardByCount(c, loss, target);
  }

  /** SelectionCountPositive for one loss entry per target entry: some entry is left over exactly
      when some target entry is ignored. */
  lemma PerPixelCountPositive(ratio: real, loss: seq<real>, target: seq<int>, ignoreIndex: int)
    requires |loss| == |target|
    requires 0.0 <= ratio
    ensures var numPos := CountNotIgnored(target, ignoreIndex); var k := SelectionCount(ratio, numPos, |loss|);
      && 0 <= k
      && (0 < k <==> 1.0 <= ratio * numPos as real && multiset(target)[ignoreIndex] > 0)
  {
    SelectionCountPositive(ratio, CountNotIgnored(target, ignoreIndex), |loss|);
  }

  /** With one loss entry per target entry, a batch in which no entry is ignored selects nothing:
      every entry counts as positive, none is left over, and forward is NaN. */
  lemma FullyLabelledIsNaN(c: OhemLoss, loss: seq<real>, target: seq<int>)
    requires |loss| == |target|
    requires 0.0 <= c.ratio
    requires c.ignoreIndex !in target
    ensures Forward(c, loss, target) == NotANumber
  {
    assert multiset(target)[c.ignoreIndex] == 0;
    var numPos := CountNotIgnored(target, c.ignoreIndex);
    assert SelectionCount(c.ratio, numPos, |loss|) == 0;
  }

  /** A target whose every entry is ignored selects nothing: forward is the mean of nothing. */
  lemma NoLabelledPixels(c: OhemLoss, loss: seq<real>, target: seq<int>)
    requires multiset(target)[c.ignoreIndex] == |target|
    ensures Forward(c, loss, target) == NotANumber
  {
  }

  /** A loss yielded by forward is non-negative, at least the plain mean of all entries,
      at most some entry, and at least every entry that was not selected. */
  lemma ForwardBounds(c: OhemLoss, loss: seq<real>, target: seq<int>, v: real)
    requires forall i :: 0 <= i < |loss| ==> 0.0 <= loss[i]
    requires Forward(c, loss, target) == Loss(v)
    ensures 0.0 <= v
    ensures |loss| > 0 && Mean(loss) <= v
    ensures exists i :: 0 <= i < |loss| && v <= loss[i]
    ensures var k := SelectionCount(c.ratio, CountNotIgnored(target, c.ignoreIndex), |loss|);
      0 < k <= |loss| && forall y :: y in multiset(loss) - multiset(TopK(loss, k)) ==> y <= v
  {
    var k := SelectionCount(c.ratio, CountNotIgnored(target, c.ignoreIndex), |loss|);
    assert 0 < k <= |loss| && v == Mean(TopK(loss, k));
    TopKMeanBounds(loss, k);
  }

  /** Reordering the pixels (the loss and the target alike) does not change forward. */
  lemma ForwardPermutationInvariant(c: OhemLoss, loss: seq<real>, loss': seq<real>, target: seq<int>, target': seq<int>)
    requires multiset(loss) == multiset(loss')
    requires multiset(target) == multiset(target')
    ensures Forward(c, loss, target) == Forward(c, loss', target')
  {
    assert |loss| == |multiset(loss)| == |multiset(loss')| == |loss'|;
    assert |target| == |multiset(target)| == |multiset(target')| == |target'|;
    var k := SelectionCount(c.ratio, CountNotIgnored(target, c.ignoreIndex), |loss|);
    if 0 < k {
      TopKPermutationInvariant(loss, loss', k);
    }
  }

  /** As written, `loss` is the [N, H, W] tensor, so `len(loss)` is the batch size N and not the
      number of pixels: num_neg is computed against N. */
  function AsWrittenSelectionCount(c: OhemLoss, batchSize: nat, target: seq<int>): int {
    SelectionCount(c.ratio, CountNotIgnored(target, c.ignoreIndex), batchSize)
  }

  /** Against N, any batch with more labelled pixels than images gets a negative count, which
      `topk` rejects; against the pixel count the same batch never does. */
  lemma AsWrittenCountNegative(c: OhemLoss, batchSize: nat, target: seq<int>)
    requires 0.0 <= c.ratio
    requires |target| - multiset(target)[c.ignoreIndex] > batchSize
    ensures AsWrittenSelectionCount(c, batchSize, target) < 0
    ensures 0 <= SelectionCount(c.ratio, CountNotIgnored(target, c.ignoreIndex), |target|)
  {
  }

  /** One 2 x 2 image with every pixel labelled: num_neg = min(12, 1 - 4) = -3. */
  lemma AsWrittenExample()
    ensures AsWrittenSelectionCount(OhemLoss(20), 1, [0, 1, 2, 3]) == -3
  {
    var t := [0, 1, 2, 3];
    assert multiset(t)[-100] == 0;
    assert CountNotIgnored(t, -100) == 4;
  }
}
