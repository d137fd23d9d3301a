# BiSeNet training script: optimizer groups, hard-example loss, epoch loop

This project models the discrete logic of the BiSeNetV1 semantic-segmentation training script
`train/bisenet-train.py` and proves properties of it in Dafny. There are three parts:

- **Optimizer groups** (`set_optimizer`, module `Optimizer`). If the model has a `get_params`
  accessor, its four lists become four SGD parameter groups. The two no-decay groups override the
  weight decay to 0, and the two learning-rate-multiplied groups override the learning rate to
  10 × 1e-2. Otherwise the parameters from `named_parameters` are routed by tensor rank. Rank 1 goes
  to the no-decay group, rank 2 or 4 goes to the decay group, and any other rank is dropped. The
  optimizer defaults are lr 1e-2, momentum 0.9 and weight decay 5e-4. A parameter is the record
  `Param(name, rank)`. The fallback loop is the method `PartitionByRank`, proved against the
  function `Routed`. `Resolve` gives the hyperparameters each group trains with once SGD has filled
  in the keys the group does not set. `torch.optim.SGD` raises a ValueError when one parameter
  appears in two groups; the model returns `ParameterInSeveralGroups` in that case. A parameter's
  identity is its `Param` value. The `get_params` lists are arbitrary inputs, so that branch can
  overlap. The rank-based branch never overlaps.
- **Ratio-based hard-example loss** (`OHEMLoss.forward`, modules `Ohem` and `Selection`). The
  per-pixel cross-entropy is an input sequence of reals. `num_pos` counts the target entries that
  are not `ignore_index`. `num_neg = min(int(ratio * num_pos), len(loss) - num_pos)`, where `int`
  truncates toward zero. The result is the mean of the `num_neg` largest losses. A negative
  `num_neg` is modelled as the error `topk` raises (`TopkOutOfRange`). Zero is modelled as the NaN
  that `mean()` of an empty selection gives (`NotANumber`). Top-k is stated by value: sorting
  non-increasingly and taking a prefix. With one loss entry per target entry, forward yields a loss
  exactly when `ratio * num_pos >= 1` and at least one entry is ignored. In every other case it is
  NaN, so a batch with no ignored pixel gives NaN.
- **Epoch loop** (`__main__`, module `Training`). Each pass accumulates
  `running_loss += loss * batch_size` and divides by the dataset length. The same method,
  `AccumulateLoss`, models the training pass and the validation pass, which has the same shape.
  `Train` runs the ten epochs. Each epoch trains, validates, records the two losses and saves
  checkpoint `bisenetv1_model_e{epoch+1}.pth`. A division by an empty dataset ends the run at once.

The batch losses (`loss.item()`) and batch sizes (`images.size(0)`) come from the network and the
loader, so they are inputs to the model. Both passes use the script's `criterion`, so the
training and validation losses are computed the same way.

Three behaviours of the code are kept as written:

- Parameters of a rank other than 1, 2 or 4 are dropped silently, not rejected (`RoutedMembers`,
  `FallbackGroups`).
- The count is not clamped. A negative `num_neg` makes `topk` fail, and zero yields NaN
  (`ForwardOutcome`, `NoLabelledPixels`).
- The per-pixel loss has one entry per target position, with the ignored positions included.

## Model

| member | source | states |
|---|---|---|
| `Optimizer.PartitionByRank` | train/bisenet-train.py:27-32 | the loop's two lists are exactly the decay-routed and no-decay-routed parameters of `named_parameters`, in order |
| `Optimizer.SetOptimizer` | train/bisenet-train.py:13-43 | builds the four-group list when `get_params` exists and the two-group rank-based list otherwise, with SGD defaults lr 1e-2, momentum 0.9, weight decay 5e-4; SGD rejects groups that share a parameter |
| `Optimizer.GetParamsOverlap` | train/bisenet-train.py:17-42 | with `get_params`, SGD raises exactly when some parameter is in two of the four lists, and builds the optimizer otherwise |
| `Optimizer.FallbackBuilt` | train/bisenet-train.py:26-42 | without `get_params`, SGD is always built: no parameter reaches both the decay and the no-decay list |
| `Optimizer.GroupHyperparameters` | train/bisenet-train.py:16-42 | once SGD is built, there are 4 groups with `get_params` and 2 without; every group trains with momentum 0.9; the no-decay groups (odd positions) use weight decay 0 and the others 5e-4; the two lr-multiplied groups use lr 0.1 and all others 0.01 |
| `Optimizer.GroupedParams` | train/bisenet-train.py:17-25 | with `get_params` the groups hold its four lists unchanged, in the order wd, nowd, lr-mul wd, lr-mul nowd |
| `Optimizer.RoutedMembers` | train/bisenet-train.py:28-32 | a parameter is in a group exactly when it was enumerated and its rank routes it to that group |
| `Optimizer.RoutedPositions` | train/bisenet-train.py:27-32 | each group is the enumeration read at strictly increasing positions, and these are exactly the positions whose rank routes there, so enumeration order is kept |
| `Optimizer.RoutedPartition` | train/bisenet-train.py:27-32 | decay, no-decay and dropped parameters together are the multiset of all enumerated parameters: nothing is lost or duplicated |
| `Optimizer.FallbackGroups` | train/bisenet-train.py:26-36 | without `get_params`: rank-1 parameters are exactly the no-decay group, rank 2 or 4 exactly the decay group, the groups are disjoint, and their union is exactly the rank-{1,2,4} parameters |
| `Selection.TopK` | train/bisenet-train.py:60-61 | the selection has k values drawn from the input multiset, and each selected value is at least every value left out |
| `Selection.TopKPermutationInvariant` | train/bisenet-train.py:60-61 | the selected values depend only on the multiset of losses, not their order |
| `Selection.TopKMeanAtLeastMean` | train/bisenet-train.py:60-61 | the mean of the k largest values is at least the mean of all values |
| `Selection.TopKMeanBounds` | train/bisenet-train.py:60-61 | for non-negative losses the selected mean is non-negative, at least the overall mean and every unselected value, and at most some input value |
| `Ohem.Trunc` | train/bisenet-train.py:58 | `int()` truncates toward zero: the result is the integer between 0 and x that lies within 1 of x |
| `Ohem.CountNotIgnored` | train/bisenet-train.py:57 | `num_pos` is the number of target entries minus the occurrences of `ignore_index` |
| `Ohem.SelectionCount` | train/bisenet-train.py:58 | `num_neg <= len(loss) - num_pos`; for a non-negative ratio `num_neg <= ratio * num_pos` and it is the largest integer at most both bounds; it lies in [0, len(loss)] when `num_pos <= len(loss)`; it is 0 when `num_pos` is 0 |
| `Ohem.SelectionCountPositive` | train/bisenet-train.py:58 | for a non-negative ratio, `num_neg > 0` exactly when `ratio * num_pos >= 1` and `num_pos < len(loss)` |
| `Ohem.ForwardNeverOutOfRange` | train/bisenet-train.py:54-60 | with one loss entry per target entry and a non-negative ratio, `topk` never gets a negative count |
| `Ohem.ForwardOutcome` | train/bisenet-train.py:57-61 | with one loss entry per target entry and a non-negative ratio, forward yields a loss exactly when `ratio * num_pos >= 1` and some target entry is ignored, and NaN otherwise |
| `Ohem.PerPixelCountPositive` | train/bisenet-train.py:57-58 | with one loss entry per target entry, `num_neg` is never negative, and it is positive exactly when `ratio * num_pos >= 1` and some target entry is ignored |
| `Ohem.FullyLabelledIsNaN` | train/bisenet-train.py:57-61 | with one loss entry per target entry, a batch with no ignored entry gives `num_neg = 0`, and forward is NaN |
| `Ohem.NoLabelledPixels` | train/bisenet-train.py:57-61 | if every target entry is ignored, forward is NaN |
| `Ohem.ForwardBounds` | train/bisenet-train.py:60-61 | a loss forward returns is non-negative, at least the plain mean and every unselected entry, and at most some pixel loss |
| `Ohem.ForwardPermutationInvariant` | train/bisenet-train.py:54-61 | reordering the pixels (loss and target together) leaves forward unchanged |
| `Ohem.AsWrittenCountNegative` | train/bisenet-train.py:54-58 | counted against the batch size N, as the code does, `num_neg` is negative whenever more pixels are labelled than there are images; counted against the pixel count, it is not |
| `Ohem.AsWrittenExample` | train/bisenet-train.py:58 | one 2×2 image with all pixels labelled gives `num_neg = -3` as written |
| `Training.AccumulateLoss` | train/bisenet-train.py:108-148 | the accumulator ends as the sum over batches of loss × batch size; the pass yields that sum divided by the dataset length, or a division-by-zero error when the length is 0 |
| `Training.EpochLossBounds` | train/bisenet-train.py:132-134 | when the batch sizes add up to the dataset length, the epoch loss lies between the smallest and largest batch loss |
| `Training.ConstantLoss` | train/bisenet-train.py:132-134 | a constant batch loss c over batches that cover the dataset gives epoch loss c |
| `Training.Train` | train/bisenet-train.py:103-153 | the ten-epoch loop produces exactly the report `Run` defines, stopping at the first division error |
| `Training.AbortIsFinal` | train/bisenet-train.py:105-148 | once an epoch has failed, later epochs add no metrics and no checkpoints |
| `Training.RunCompletes` | train/bisenet-train.py:105-153 | with both datasets non-empty, epoch n records its training and validation losses (weighted sums over dataset lengths) and saves exactly one checkpoint, numbered n |
| `Training.RunAbortsOnEmptyDataset` | train/bisenet-train.py:134-148 | an empty training (or validation) set ends the run in epoch 1 with no metrics and no checkpoint (in the program only the validation case arises; see Left out) |

## Left out

- `F.cross_entropy`, the tensor `topk`, `.item()`, autograd, `optimizer.zero_grad`/`step` and the SGD update. These are library calls: per-pixel losses and batch losses are inputs, and no optimizer update is modelled.
- Floating point. Losses, rates and ratios are exact reals, with no NaN arithmetic or rounding. NaN appears only as the outcome `NotANumber`.
- Tensor shapes. In the code `loss` has shape [N, H, W], so `len(loss)` is N and `topk` acts on the last dimension. The model flattens the loss to one entry per pixel (see Findings) and does not model the index tensor or `loss[indices]` on a 3-D tensor.
- Which index `topk` picks among equal losses. The model states the selection by value, and this choice does not change any selected value or the mean.
- `OhemCELoss(0.7, -100)`, the threshold-based loss the script actually uses as `criterion`. It is imported from `ohem_ce_loss`, which is not part of this model. The locally defined `OHEMLoss` is the one modelled.
- SGD's other checks on its parameter groups. A parameter listed twice inside one group only draws a warning, and a parameter must be a leaf tensor. The model checks only for overlap between groups.
- `BiSeNetV1` and the internals of `get_params`. The four lists are inputs.
- Data loading (`cityscapes`, `MyCoTransform`, `DataLoader` shuffling and workers), device moves, `labels.squeeze(1)`, argparse, `print` and the serialisation in `torch.save`. These are I/O and library wiring. A checkpoint is recorded only by its epoch number, and the file name's formatting is not modelled.
- The training loader's refusal of an empty dataset. `DataLoader(dataset_train, shuffle=True)` at line 84 builds a random sampler, which raises a ValueError when the dataset is empty. So the program never reaches the division at line 134 with an empty training set, and the `TrainDivisionByZero` outcome of `Run` does not occur in the program. The validation loader does not shuffle, so an empty validation set does reach the division at line 148 (`ValDivisionByZero`).
- `Training.Train` takes the per-epoch batch losses as given: how an optimizer step changes the next epoch's losses is not modelled.

## Findings

| source | as written | input that shows it | evidently intended | confidence | as-written member | corrected member |
|---|---|---|---|---|---|---|
| train/bisenet-train.py:54-60 | `len(loss)` of the [N, H, W] loss tensor is the batch size N, so `num_neg = min(int(ratio * num_pos), N - num_pos)` | one 2×2 image, all 4 pixels labelled, ratio 3: `num_neg = min(12, 1 - 4) = -3`, and `topk(-3)` raises | count against the number of per-pixel entries N·H·W, so that `0 <= num_neg <= len(loss)` | not executed | `Ohem.AsWrittenCountNegative` | `Ohem.ForwardNeverOutOfRange` |
