# Poisoned-client and poisoned-sample detection in federated learning, modelled in Dafny

This project models the core of a federated-learning experiment with a
two-stage defence against label-flipping attacks.

In each round every client trains a copy of the global model on its share
of the data. During training it accumulates an importance weight for
every parameter. The parameters that weigh most become the client's
"omega index". In the last round up to forty clients flip part of their
attack labels to "normal".

The defence pools the clients' omega indices. It keeps the indices that
more than 90 clients agree on and builds one feature row per client from
the weight changes at those indices. A detector labels each client clean
or poisoned, and only the clean clients are averaged into the new global
model.

Next, a profiler hooked into the global model traces, for one input, the
neurons that carry most of the relevance from the output back through the
layers. The clean clients' correctly predicted samples give each class a
fingerprint: a list of neuron lists and a neuron counter per layer. Each
sample of a suspected client is compared with the fingerprint of its
label. It is flagged when its mean similarity falls below the class's
threshold.

The modules follow the program:

- `Flatten` is the recursive `flatten` generator.
- `Hook` is the forward-hook wrapper `TorchHook`, a class whose fields its
  methods update.
- `Selection` is the `torch.topk` index choice: greedy maximum. On ties
  the model takes the lowest index first; `torch.topk` leaves that order
  unspecified, and the `TopK` contract holds whichever tied index is
  taken.
- `Grouper` is the layer grouping of `create_layers`, stated as a walk
  over the reversed module order.
- `Profiler` is the class `TorchProfiler`: `create_layers`, which drives
  the `GroupLayers` loop and registers the hooks, and `create_profile`,
  which traces the profile of one input.
- `Aggregation` holds `FedAvg`, `getGradVec` and `defence_det`.
- `Consensus` holds `defence_our`: index pooling, the more-than-90 vote,
  and the feature rows.
- `Importance` holds `consolidate`, the importance accumulator of the
  training loop, and the top-K cap on the reported indices.
- `Partition` holds `iid`, the split of the sorted sample indices among
  clients by combinations of attack classes.
- `Poisoning` holds the label binarisation, the poisoned-client decision
  and the label-flipping attack of the training loop.
- `Flagging` holds the fingerprint collection over clean clients and the
  flagging of samples of poisoned clients.

Tensors are sequences of reals. Each state dict is a sequence of keys
with one tensor per key. Python's truncating `int()` is `TruncToInt`.
Python slices clamp to the sequence, which `SliceEnd` models. The
constants of the source appear as written:

- 90 is the consensus threshold.
- 40 is the cap on poisoned clients.
- 0.8 is the share of flipped labels.
- 0.1 is the fixed contribution threshold.
- The top-K cap is 100 above 1000 entries.
- The profile neuron counts are 12, 28, 3, 1 and 1.
- The iid pools are 280000 normal and 4 × 70000 attack indices.

## Model

| member | source | states |
|---|---|---|
| Flatten.Flatten | main_poisoned_data_det.py:33-40 | every yielded item is an atom: a scalar, a string or bytes |
| Flatten.FlattenYieldsEveryLeaf | main_poisoned_data_det.py:33-40 | one item comes out for each leaf of the nested input |
| Flatten.FlattenOfAtoms | main_poisoned_data_det.py:33-40 | a list of atoms comes back unchanged |
| Flatten.FlattenAppend | main_poisoned_data_det.py:33-40 | flattening a concatenation concatenates the flattenings |
| Flatten.FlattenIdempotent | main_poisoned_data_det.py:33-40 | flattening twice equals flattening once |
| Flatten.FlattenIgnoresNesting | main_poisoned_data_det.py:36-38 | a nested iterable is flattened in place, as its own items |
| Hook.LeafModules | utils/torch_hook.py:29-30 | keeps exactly the named modules that have no children |
| Hook.LeafDictIsLeaves | utils/torch_hook.py:29-30 | the module dict's keys are exactly the leaf names, each mapped to its module's kind |
| Hook.LeafNamesDistinct | utils/torch_hook.py:29-30 | leaf names are distinct when module names are |
| Hook.CapturedKeys | utils/torch_hook.py:42-43 | a name is in the activation dict exactly when it is hooked and its layer ran in the pass |
| Hook.CapturedKeepsLastWrite | utils/torch_hook.py:42-43 | the activation stored for a name is the output of that layer's last run |
| Hook.FirstMissing | utils/torch_hook.py:52-56 | the position of the first name not in the module dict: every name before it is present |
| Hook.FirstMissingAt | utils/torch_hook.py:52-56 | any position with all names before it present and itself missing (or the end) is the first missing one |
| Hook.TorchHook.constructor | utils/torch_hook.py:22-32 | the module dict is the leaf dict in model order; no activations, no hooked names |
| Hook.TorchHook.AvailableModules | utils/torch_hook.py:34-40 | returns the module order and dict unchanged |
| Hook.TorchHook.HookFn | utils/torch_hook.py:42-43 | the activation dict gains or overwrites exactly the given name |
| Hook.TorchHook.AddHooks | utils/torch_hook.py:45-56 | names are appended and registered up to the first unknown one; the unknown name is appended, then the KeyError stops the loop |
| Hook.TorchHook.Forward | utils/torch_hook.py:58-76 | returns the model output and the activations the hooks capture during this pass alone |
| Selection.BestFrom | main_poisoned_data_det.py:274-275 | the untaken position of largest value from i on, or none exactly when all are taken |
| Selection.ArgMax | main_poisoned_data_det.py:212 | a position of the maximum, the first one on ties |
| Selection.ArgMaxFrom | main_poisoned_data_det.py:212 | the first position of the maximum from i on |
| Selection.TopK | main_poisoned_data_det.py:274-275 | k distinct positions, in non-increasing value order, no left-out value above a chosen one |
| Selection.FreePositionExists | main_poisoned_data_det.py:274-275 | fewer than n distinct positions below n leave one free |
| Selection.TopKIsUpperSet | main_poisoned_data_det.py:274-275 | a position whose value beats a chosen one is chosen too |
| Grouper.RuleFor | main_poisoned_data_det.py:134-141 | every implemented layer kind has a contribution rule |
| Grouper.VisitKeepsShape | main_poisoned_data_det.py:158-188 | one module visit keeps the layer dict's shape |
| Grouper.WalkKeepsShape | main_poisoned_data_det.py:158-188 | the whole walk keeps the layer dict's shape |
| Grouper.WalkWithinLimit | main_poisoned_data_det.py:182-188 | below the layer limit, the walk stops only at an unimplemented module, which closes the last group |
| Grouper.LayerDictShape | main_poisoned_data_det.py:146-191 | keys 1..: groups that end in an implemented layer, then the [0,0] sentinel when the walk ran out, or a stop group with no rule otherwise |
| Grouper.ForwardNamesSnoc | main_poisoned_data_det.py:157-163 | a new group's names come before those of the earlier groups in forward order |
| Grouper.CloseCovers | main_poisoned_data_det.py:159-163 | closing a group puts the module in front of the pending names |
| Grouper.VisitCovers | main_poisoned_data_det.py:165-188 | a visit adds the module in front of the grouped names unless it is dropout or batchnorm |
| Grouper.KeptSnoc | main_poisoned_data_det.py:165-173 | the kept names of a longer order add the new module unless it is skipped |
| Grouper.StopPointExtends | main_poisoned_data_det.py:159-164 | a stop point found in a shorter order is one of the longer order |
| Grouper.WalkCoversKept | main_poisoned_data_det.py:158-191 | a walk that ran out groups every non-skipped module, in forward order |
| Grouper.WalkCoversStopped | main_poisoned_data_det.py:158-188 | a stopped walk groups the stop module and every non-skipped module after it |
| Grouper.LayerDictCovers | main_poisoned_data_det.py:146-191 | the layer dict's names, in forward order, are exactly the kept module names, from the stop point on when the walk stopped |
| Grouper.WalkNamesPlaced | main_poisoned_data_det.py:160-186 | the name set is exactly the set of names placed in groups or still pending |
| Grouper.HookedNamesArePlaced | main_poisoned_data_det.py:151-192 | the hooked names are exactly the names placed in the layer dict or pending |
| Grouper.HookedNamesAreLayers | main_poisoned_data_det.py:151-192 | every hooked name is a module of the model |
| Grouper.WalkNamesFrom | main_poisoned_data_det.py:158-188 | the walk adds no name outside the module order |
| Profiler.SelectTop | main_poisoned_data_det.py:371-373 | K = int(threshold * n); when 0 <= K <= n, K distinct positions with no left-out score above a chosen one, and otherwise the top-k call raises |
| Profiler.ContribRule | main_poisoned_data_det.py:197-199 | a rule succeeds only for linear, max-pool and conv layers, and its neurons are distinct |
| Profiler.ContribRuleSelects | main_poisoned_data_det.py:253-375 | succeeds exactly when the layer arity fits, the relevance computation succeeds and K is in range; then the neurons are the top-K scores and the relevance passes on |
| Profiler.TenthOfSize | main_poisoned_data_det.py:311 | int(0.1 * n) is n div 10 |
| Profiler.FixedRulesTakeATenth | main_poisoned_data_det.py:309-375 | the linear and conv rules ignore the threshold argument and take a tenth of the scores |
| Profiler.WalkLength | main_poisoned_data_det.py:220-223 | the profiled range: the whole dict when n_layers is 0 or too large, otherwise n_layers + 1 |
| Profiler.IncomingActivation | main_poisoned_data_det.py:228-232 | the sentinel feeds the model input; a group feeds its last module's activation, missing when it was not captured |
| Profiler.OneHot | main_poisoned_data_det.py:216-218 | the output masked to the argmax logit |
| Profiler.LayersKeys | main_poisoned_data_det.py:224-247 | the loop records keys 1..m-1 for some m, each under a group with a rule, and keeps the layer-0 entry |
| Profiler.RecordExtends | main_poisoned_data_det.py:238-241 | recording one layer extends the recorded keys by one |
| Profiler.SeedShape | main_poisoned_data_det.py:211-215 | the profile starts with the argmax neuron at key 0 |
| Profiler.ProfileShape | main_poisoned_data_det.py:201-251 | no profile for an empty output; otherwise key 0 is the argmax, keys 1..m-1 are consecutive layers, m at most the walk length n (or 1), so only layers of `range(1, n)` are recorded, and each is recorded from a grouped layer |
| Profiler.GroupLayers | main_poisoned_data_det.py:146-192 | the loop builds the layer dict and name set that the reversed-order walk defines |
| Profiler.TorchProfiler.constructor | main_poisoned_data_det.py:125-144 | wraps the model in a fresh hook and takes its leaf modules |
| Profiler.TorchProfiler.CreateLayers | main_poisoned_data_det.py:146-195 | returns the walk's layer dict and hooks each name of the name set once, appended after the earlier hooks |
| Profiler.TorchProfiler.CreateProfile | main_poisoned_data_det.py:201-251 | the profile of one forward pass on the activations the hooks captured |
| Aggregation.FedAvg | main_poisoned_data_det.py:490-496 | same keys as client 0; each entry is the mean of that entry over all clients |
| Aggregation.ColumnSumOfCopies | main_poisoned_data_det.py:490-496 | summing n identical tensors gives n times the tensor |
| Aggregation.MeanOfCopies | main_poisoned_data_det.py:490-496 | averaging identical models returns that model |
| Aggregation.Parts | main_poisoned_data_det.py:501-502 | the tensors of a state dict, in key order |
| Aggregation.GetGradVec | main_poisoned_data_det.py:499-506 | the concatenation of the tensors in key order: each tensor sits at its offset |
| Aggregation.DefenceDet | main_poisoned_data_det.py:509-517 | client 0 plus each later client labelled 0, divided by len(d) - sum(d); no result exactly when that divisor is 0 and there is a key |
| Aggregation.DivisorCountsClean | main_poisoned_data_det.py:516 | for 0/1 labels the divisor counts the clients labelled 0 |
| Aggregation.DetSumIsClientZeroPlusClean | main_poisoned_data_det.py:511-515 | the sum is client 0 plus the clean clients from index 1 on |
| Aggregation.DefenceDetIsCleanMean | main_poisoned_data_det.py:509-517 | with client 0 clean, the result is the mean of the clean clients |
| Aggregation.CleanCountPositive | main_poisoned_data_det.py:516 | a clean client 0 makes the divisor positive |
| Aggregation.FlaggedClientZeroStillSummed | main_poisoned_data_det.py:510-516 | a flagged client 0 is still summed but not counted in the divisor |
| Aggregation.NoneFlaggedIsFedAvg | main_poisoned_data_det.py:509-517 | with no client flagged, the sum and divisor are FedAvg's |
| Aggregation.AllCleanCount | main_poisoned_data_det.py:516 | all-zero labels count every client |
| Consensus.Lists | main_poisoned_data_det.py:524-526 | the index lists of all clients for one parameter, in client order |
| Consensus.Dedup | main_poisoned_data_det.py:539-545 | the distinct indices of the pool, each once |
| Consensus.AboveIff | main_poisoned_data_det.py:541-545 | an index is kept exactly when it occurs more than 90 times in the pool |
| Consensus.KeptIff | main_poisoned_data_det.py:539-545 | the kept indices are distinct, and are exactly the indices counted more than 90 times |
| Consensus.DistinctCountsOnce | main_poisoned_data_det.py:714-720 | a list of distinct indices counts each index at most once |
| Consensus.PooledCountBound | main_poisoned_data_det.py:527 | no index occurs in the pool more often than there are clients |
| Consensus.FewClientsKeepNothing | main_poisoned_data_det.py:541-545 | with 90 or fewer clients no index is ever kept |
| Consensus.Diffs | main_poisoned_data_det.py:549-551 | the weight changes at the selected indices |
| Consensus.RowLength | main_poisoned_data_det.py:534-554 | a feature row has one entry per kept index over all keys |
| Consensus.Selection | main_poisoned_data_det.py:523-527 | kept indices for exactly client 0's parameters |
| Consensus.SelectionInRange | main_poisoned_data_det.py:546-551 | every kept index lies inside every client's tensor and the previous model's |
| Consensus.ConcatMember | main_poisoned_data_det.py:527 | an index in the pool comes from some client's list |
| Consensus.Features | main_poisoned_data_det.py:531-554 | one feature row per client |
| Consensus.FeaturesAt | main_poisoned_data_det.py:531-554 | row i holds client i's weight changes at the kept indices, key by key |
| Consensus.FewClientsGiveEmptyRows | main_poisoned_data_det.py:531-554 | with 90 or fewer clients every row is empty |
| Consensus.NothingSelected | main_poisoned_data_det.py:546-553 | no kept index in any key gives an empty row |
| Consensus.PoolIndices | main_poisoned_data_det.py:523-527 | for each of client 0's parameters, the pooled indices of all clients |
| Consensus.KeptIndices | main_poisoned_data_det.py:539-545 | the loop keeps the indices counted more than 90 times |
| Consensus.FeatureRow | main_poisoned_data_det.py:532-554 | the loop builds one client's feature row |
| Consensus.FeatureMatrix | main_poisoned_data_det.py:531-554 | the loop builds the feature rows of all clients |
| Consensus.FeaturesSnoc | main_poisoned_data_det.py:554 | appending client i's row extends the prefix of the feature matrix |
| Consensus.DefenceOur | main_poisoned_data_det.py:520-578 | with no kept index in any key the scaler fails and there is no model and no label; otherwise the labels are the detector's verdict on the feature matrix, and the model is defence_det's clean mean under them, missing exactly when a label is missing or the divisor is 0 |
| Consensus.ColumnCount | main_poisoned_data_det.py:539-555 | the feature matrix has one column per kept index over all keys |
| Importance.ImportanceOf | main_poisoned_data_det.py:589 | importance is non-negative, and 0 exactly when the accumulated weight is not positive |
| Importance.UnmovedScoresHighest | main_poisoned_data_det.py:585-589 | an unmoved parameter scores max(w, 0) / eps, the largest score any change can give |
| Importance.ImportanceMonotone | main_poisoned_data_det.py:589 | a larger accumulated weight never lowers importance |
| Importance.ImportanceVec | main_poisoned_data_det.py:585-589 | the pointwise importance of one tensor |
| Importance.Consolidate | main_poisoned_data_det.py:581-593 | one tensor per parameter: pointwise max(W, 0) / (change² + eps), non-negative, 0 exactly where W <= 0 |
| Importance.StepVec | main_poisoned_data_det.py:706 | w - g * (p - p_old), pointwise |
| Importance.Accumulated | main_poisoned_data_det.py:703-707 | the update touches no key outside the weight map and keeps tensor lengths |
| Importance.Accumulate | main_poisoned_data_det.py:703-707 | the loop over the parameters performs the accumulated update |
| Importance.PrefixShaped | main_poisoned_data_det.py:703-707 | a prefix of the parameter loop is itself a well-shaped loop |
| Importance.AccumulatedSnoc | main_poisoned_data_det.py:704-707 | one more parameter updates exactly that parameter's entry |
| Importance.AccumulatedUntouched | main_poisoned_data_det.py:703-707 | weights of parameters the loop does not visit are unchanged |
| Importance.AccumulatedPointwise | main_poisoned_data_det.py:703-707 | with distinct names, each parameter gets exactly its own step |
| Importance.CapFor | main_poisoned_data_det.py:715-718 | 100 above 1000 entries, otherwise int(0.1 * n) = n div 10; never more than n or 100 |
| Importance.Reported | main_poisoned_data_det.py:719-720 | that many distinct positions, with no left-out importance above a reported one |
| Importance.OmegaIndexOf | main_poisoned_data_det.py:713-720 | the omega index reports the top positions of every parameter |
| Importance.ReportedListsKeepNothing | main_poisoned_data_det.py:713-720 | with 90 or fewer clients, reported lists never reach the consensus |
| Partition.Prefixed | main_poisoned_data_det.py:394 | prefixes every combination with v |
| Partition.Combinations | main_poisoned_data_det.py:394 | C(5-lo, k) increasing k-tuples over lo..4, in lexicographic order |
| Partition.BinomialsOfFour | main_poisoned_data_det.py:393 | 4, 6, 4 and 1 combinations for degrees 1 to 4 |
| Partition.CombinationsOfDegree | main_poisoned_data_det.py:393-394 | the number of attack-class combinations for each degree |
| Partition.CombinationsLeadingOrder | main_poisoned_data_det.py:394 | combinations come ordered by their first class |
| Partition.Repeat | main_poisoned_data_det.py:393-394 | n copies of the combination list |
| Partition.RepeatAt | main_poisoned_data_det.py:393-394 | entry i of the copies is combination i mod the count |
| Partition.Copies | main_poisoned_data_det.py:393 | ceil(num_users / count): enough copies to cover every client, no more |
| Partition.CombRand | main_poisoned_data_det.py:392-396 | every entry is an attack-class combination of the given degree, its classes increasing |
| Partition.DrawnClassesOnly | main_poisoned_data_det.py:392-396 | drawn combinations name attack classes 1..4 only, each in increasing order, so no class twice |
| Partition.CombRandShape | main_poisoned_data_det.py:392-396 | min(copies * count, 100) entries, cycling through the combinations |
| Partition.CombRandAt | main_poisoned_data_det.py:392-396 | entry i is combination i mod count |
| Partition.CombRandFits | main_poisoned_data_det.py:392-398 | the list fits the clients exactly when there are at least 100 clients or the count divides num_users |
| Partition.BuildCombRand | main_poisoned_data_det.py:392-396 | the loop builds the truncated combination list |
| Partition.InitialPools | main_poisoned_data_det.py:388-391 | the normal pool is the first 280000 sorted indices; attack pool c is the c-th 70000 after them |
| Partition.SliceDistinct | main_poisoned_data_det.py:389-391 | a slice of distinct indices has as many elements as positions |
| Partition.SlicesDisjoint | main_poisoned_data_det.py:389-391 | disjoint slices of distinct indices share no element |
| Partition.InitialPoolsOfPermutation | main_poisoned_data_det.py:386-391 | for a permutation, the pools have the stated sizes and are pairwise disjoint |
| Partition.TakeSome | main_poisoned_data_det.py:400-402 | takes k elements of the pool |
| Partition.TakeAttack | main_poisoned_data_det.py:404-410 | takes num_attack from a large enough pool and removes them; otherwise gives the whole pool and leaves it |
| Partition.NormalSharesAreFull | main_poisoned_data_det.py:399-402 | every client served gets the full normal share |
| Partition.Drawn | main_poisoned_data_det.py:404-410 | a draw touches only the pool of its class; the normal pool is untouched |
| Partition.AfterClient | main_poisoned_data_det.py:403-410 | one client's attack draws leave the normal pool untouched |
| Partition.Union | main_poisoned_data_det.py:407-410 | every draw of a client is part of what it holds from the attack classes |
| Partition.FullDrawRemoves | main_poisoned_data_det.py:404-408 | a full draw leaves its pool num_attack smaller and without the drawn indices |
| Partition.ShortDrawKeeps | main_poisoned_data_det.py:404-410 | a pool smaller than num_attack is handed over whole and left in place |
| Partition.ClientDrawsFairAt | main_poisoned_data_det.py:403-410 | the t-th draw of a client is fair against the pools its earlier draws left |
| Partition.ShortPoolStays | main_poisoned_data_det.py:404-410 | no draw of a client changes a pool smaller than num_attack |
| Partition.AllFairAt | main_poisoned_data_det.py:398-410 | client i's draws are fair against the pools that earlier clients and its own normal share left |
| Partition.ShortPoolReachesLater | main_poisoned_data_det.py:398-410 | a pool smaller than num_attack before client i is unchanged before every later client |
| Partition.ShortPoolSharedLater | main_poisoned_data_det.py:398-410 | once a pool is smaller than num_attack, every later client of that class receives the same whole pool |
| Partition.HoldsKept | main_poisoned_data_det.py:398-410 | serving client i leaves what the earlier clients hold as it was |
| Partition.ServeClient | main_poisoned_data_det.py:398-410 | one client gets a normal share removed from the pool, then one fair draw per class of its combination; the pools end as those draws leave them; the client holds exactly its share and its draws, with no index twice when the pools are separate |
| Partition.ServeAttacks | main_poisoned_data_det.py:403-410 | per class in order: num_attack taken and removed when the pool has that many, else the whole pool given and kept; the client gains exactly those draws, and no index twice when the pools are separate and its list had no repeats |
| Partition.DrawingStep | main_poisoned_data_det.py:403-410 | one pass of the inner loop extends the fair draws, the pools and the held indices by one class |
| Partition.DrawnDistinct | main_poisoned_data_det.py:403-410 | with separate pools and increasing classes, appending a draw keeps the client's list free of repeats |
| Partition.DrawApart | main_poisoned_data_det.py:403-410 | with separate pools and increasing classes, a draw shares nothing with the normal share or the earlier draws |
| Partition.HeldStep | main_poisoned_data_det.py:407-410 | appending a draw's list adds the draw to the held indices |
| Partition.DrawStep | main_poisoned_data_det.py:403-410 | a fair draw at position t extends the client's fair draws and the pools they leave |
| Partition.DealOne | main_poisoned_data_det.py:397-410 | one pass of the outer loop extends the dealt state and the fair draws to client i |
| Partition.DealtStep | main_poisoned_data_det.py:398-410 | serving client i extends the dealt invariant by one client |
| Partition.PartsStayDisjoint | main_poisoned_data_det.py:400-402 | a normal share taken from what the earlier shares left is disjoint from each of them |
| Partition.ClientsSnoc | main_poisoned_data_det.py:397-410 | serving one more client extends the pool history and its fairness by that client |
| Partition.NormalStep | main_poisoned_data_det.py:400-402 | each client takes min(num_normal, what is left) from the normal pool |
| Partition.DealtStart | main_poisoned_data_det.py:379 | every client starts with an empty entry and the pools are whole |
| Partition.DealtAll | main_poisoned_data_det.py:397-411 | after the last combination, the dealt state is the distribution iid returns, and with separate pools and increasing combinations no client list repeats an index |
| Partition.Iid | main_poisoned_data_det.py:376-411 | fails exactly when there are more combinations than clients; otherwise each client holds exactly its normal share, disjoint from the others, and one fair draw of num_attack (or the whole short pool) per class of its combination, against the pools the earlier clients left; when the sorted indices are a permutation, no client holds an index twice |
| Poisoning.Binarize | main_poisoned_data_det.py:649-650 | labels become 0 or 1, and 0 exactly where they were 0 |
| Poisoning.Positions | main_poisoned_data_det.py:659-660 | increasing positions of labels that pass the test |
| Poisoning.PositionsComplete | main_poisoned_data_det.py:659-660 | every passing position is listed |
| Poisoning.Pick | main_poisoned_data_det.py:662-665 | fancy indexing: entry a is x[idx[a]] |
| Poisoning.SliceEnd | main_poisoned_data_det.py:667-668 | where a Python slice [0:k] ends on n entries, with negative k counted from the end |
| Poisoning.Range | main_poisoned_data_det.py:672 | the positions lo..hi-1 |
| Poisoning.Zeros | main_poisoned_data_det.py:664-666 | n zero labels |
| Poisoning.NumPoison | main_poisoned_data_det.py:651-652 | int(0.8 * n): at most n, and positive exactly when n >= 2 |
| Poisoning.Share | main_poisoned_data_det.py:667 | int(prate * n) is non-negative for a non-negative rate |
| Poisoning.ShareBounds | main_poisoned_data_det.py:667 | for a rate in [0, 1] the share is at most n, and at most int(0.8 * n) when the rate is at most 0.8 |
| Poisoning.AppendAsWritten | main_poisoned_data_det.py:667-672 | the features grow by the prate share, the labels by at most the flipped count |
| Poisoning.Append | main_poisoned_data_det.py:667-672 | the normal data is kept, then each appended attack sample carries label 0 at its recorded position |
| Poisoning.PoisonAligned | main_poisoned_data_det.py:659-672 | one label per sample, and int(prate * n) attack samples for a rate in [0, 1] |
| Poisoning.PoisonKeepsNormal | main_poisoned_data_det.py:660-663 | the normal samples and labels come first, in order |
| Poisoning.PoisonRecordsAttack | main_poisoned_data_det.py:659-672 | each recorded attack position holds an original attack sample, now labelled 0 |
| Poisoning.AsWrittenAgreesUpToFourFifths | main_poisoned_data_det.py:664-668 | for a rate from 0 to 0.8 the written attack equals the intended one |
| Poisoning.AsWrittenMisalignsAboveFourFifths | main_poisoned_data_det.py:666-668 | above 0.8 there are int(prate * n) - int(0.8 * n) more samples than labels |
| Poisoning.AsWrittenCounterexample | main_poisoned_data_det.py:666-668 | ten attack samples at rate 0.9 give 9 samples and 8 labels |
| Poisoning.AsWrittenNegativeRate | main_poisoned_data_det.py:666-672 | ten attack samples at rate -0.1: the written slices count from the end (9 samples, 7 labels, no attack position recorded), while the intended attack stores 9 samples, 9 labels and 9 positions |
| Poisoning.PositionsOfUniform | main_poisoned_data_det.py:659-660 | uniform labels give all or no positions |
| Poisoning.Count | main_poisoned_data_det.py:655 | the poisoned-client counter never exceeds the clients seen |
| Poisoning.Eligible | main_poisoned_data_det.py:651-654 | a client is eligible exactly when int(0.8 * its attack count) > 0 |
| Poisoning.Marked | main_poisoned_data_det.py:654-655 | one poison flag per client |
| Poisoning.MarkedPrefix | main_poisoned_data_det.py:654-655 | a client's flag depends only on the clients before it |
| Poisoning.MarkedCount | main_poisoned_data_det.py:654-655 | min(eligible, 40) clients are poisoned in the last round, none before it |
| Poisoning.MarkedAreFirstEligible | main_poisoned_data_det.py:654 | a client is poisoned exactly when it is eligible, in the last round, with fewer than 40 eligible clients before it |
| Poisoning.MarkedSnoc | main_poisoned_data_det.py:654-655 | one more client adds the loop's decision on the count so far |
| Poisoning.ClientOutcome | main_poisoned_data_det.py:659-681 | the client's stored data has one label per sample |
| Poisoning.PoisonDecision | main_poisoned_data_det.py:651-656 | extending the clients by one adds the decision on its labels and the count so far |
| Poisoning.PrepareClient | main_poisoned_data_det.py:647-681 | the poison decision as the source takes it, and the client's data and normal/attack positions as its outcome under that decision, with the corrected attack assembly |
| Poisoning.Outcomes | main_poisoned_data_det.py:647-685 | one outcome per flagged client |
| Poisoning.OutcomesAt | main_poisoned_data_det.py:647-685 | outcome i is client i's outcome under its flag |
| Poisoning.OutcomesSnoc | main_poisoned_data_det.py:647-685 | one more flag adds that client's outcome |
| Poisoning.RecordedStore | main_poisoned_data_det.py:679-685 | storing in the last round records the new client's outcome under its index |
| Poisoning.RecordedSkip | main_poisoned_data_det.py:679-685 | an earlier round stores nothing |
| Poisoning.GroundTruth | main_poisoned_data_det.py:656-675 | Y_norm is 1 exactly for the poisoned clients and 0 for the rest |
| Poisoning.GroundTruthSnoc | main_poisoned_data_det.py:656-675 | one more client adds its row |
| Poisoning.PreparedStep | main_poisoned_data_det.py:647-685 | one client pass keeps the counter, Y_norm and the stored outcomes equal to those of the clients so far |
| Poisoning.PrepareClients | main_poisoned_data_det.py:647-685 | Y_norm is the ground truth of the poison flags; the last round stores every client's outcome under its index, earlier rounds store none |
| Flagging.ReplayList | main_poisoned_data_det.py:780-793 | an entry's list keeps exactly the correctly predicted profiles, in order |
| Flagging.ReplayAppend | main_poisoned_data_det.py:774-794 | replaying two runs of samples is replaying one after the other |
| Flagging.BagSnoc | main_poisoned_data_det.py:794 | counting one more list adds its neurons |
| Flagging.WeightedGrows | main_poisoned_data_det.py:794 | one more sample adds every accepted list once more to the counter |
| Flagging.WeightedGrowsLast | main_poisoned_data_det.py:794 | the step of WeightedGrows for the last observation |
| Flagging.CounterClosedForm | main_poisoned_data_det.py:786-794 | the counter counts accepted profile j once for every sample from j on, misclassified ones included |
| Flagging.LayerScores | main_poisoned_data_det.py:825-830 | one similarity per compared layer |
| Flagging.SampleScore | main_poisoned_data_det.py:825-831 | the loop computes the mean similarity over layers 1..5 |
| Flagging.Column | main_poisoned_data_det.py:796-802 | sample i's neurons in every layer that has an i-th profile |
| Flagging.NormalScoresOf | main_poisoned_data_det.py:795-804 | one score per accepted layer-1 profile of the class |
| Flagging.Means | main_poisoned_data_det.py:819-831 | each sample's mean similarity to its label's fingerprint |
| Flagging.Flagged | main_poisoned_data_det.py:832-833 | flagged positions lie below n |
| Flagging.FlaggedIff | main_poisoned_data_det.py:819-833 | a sample is flagged exactly when its mean is strictly below its class's threshold |
| Flagging.FlaggedIncreasing | main_poisoned_data_det.py:819-833 | flagged positions come in increasing order |
| Flagging.AcceptedCount | main_poisoned_data_det.py:785-793 | every layer accepts one profile per correctly predicted sample of its class |
| Flagging.NoProfiles | main_poisoned_data_det.py:753-761 | an empty list for every profiled layer |
| Flagging.NoCounts | main_poisoned_data_det.py:753-761 | an empty counter for every profiled layer |
| Flagging.CollectFingerprints | main_poisoned_data_det.py:753-794 | every (class, layer) entry is the replay of its samples on an empty entry; each list holds the class's correctly predicted samples |
| Flagging.CollectStep | main_poisoned_data_det.py:774-794 | absorbing one sample into its class keeps the collected invariant |
| Flagging.ObservationsStep | main_poisoned_data_det.py:774-794 | one more sample is observed only by its own class |
| Flagging.ReplaceKeepsValid | main_poisoned_data_det.py:753-761 | replacing one class's entries keeps both classes keyed by the same layers |
| Flagging.CollectedCounts | main_poisoned_data_det.py:786-794 | each class's list length counts its correctly predicted samples |
| Flagging.AbsorbProfile | main_poisoned_data_det.py:780-794 | each layer appends the profile when correct, then adds the counter of its whole list |
| Flagging.NormalScores | main_poisoned_data_det.py:795-804 | the loop computes the class's normal scores |
| Flagging.FlagSamples | main_poisoned_data_det.py:811-833 | the loop flags exactly the samples whose mean falls below their class threshold, in order |
| Flagging.FlaggedStep | main_poisoned_data_det.py:832-833 | sample i is appended exactly when its mean is below its threshold |

## Left out

- Randomness becomes an input. The sampled indices of a clean client, drawn by `np.random.choice`, are the given `samples`. The `int(0.03 * n)` sample count is left to the caller. The `random.sample` variant of `iid` is commented out in the source.
- The similarity `jaccard_simple`, `Counter.most_common` and the 5th percentile of the normal scores are parameters (`Similarity`, `MostCommon`, and given thresholds). Their numerics are not modelled.
- Floating point is exact real arithmetic. `int(0.1 * n)` and `int(0.8 * n)` are taken as n div 10 and 4n div 5. This agrees with IEEE doubles for the sizes the program sees.
- Printing is not modelled: the progress lines, confusion matrix and classification report. The recall figures at the end are also left out, since they are only printed.
- `test_img` and `test_w` evaluate a model on the test set and are not part of this model.
- Training is not modelled: the data loader, cross-entropy, autograd and the Adam step. The accumulator's inputs (gradients and parameters before and after each step) are given. Nothing is claimed about the sign of Adam's steps, so the accumulator's growth is not stated.
- `MinMaxScaler` and the SOS outlier detector form one parameter, `Detector`, from feature matrix to labels.
- The numerics of the contribution rules (LRP relevance through linear, convolution and max-pool layers) are the `Relevance` oracle. The model keeps the top-K selection, the K of each rule and the layer wiring.
- Profiler.ContribRule: the adaptive-average-pool rule indexes a fourth dimension that one-dimensional activations lack, so it always fails. This is modelled as an error, not as its arithmetic.
- Synapse counts and synapse weights of a profile are never filled by the rules, and nothing reads them. Only neuron counts are modelled.
- Flagging.CollectFingerprints: every profile is assumed to have exactly the layers of the reference profile, as all profiles of one model have.
- A profile's neurons at each layer are flattened across the single input, as `chain(*...[0])` does.
- Aggregation.DefenceDet: a zero divisor makes torch divide by zero and yield inf or nan entries; the model returns None instead of those values.
- Poisoning.ClientOutcome: it stores the corrected assembly `Poison`, not the written `PoisonAsWritten` (see Findings). The two agree for every `--prate` from 0 to 0.8, including the default 0.5 (`AsWrittenAgreesUpToFourFifths`); 0.8 is the share of attack labels the loop flips. Above 0.8 the stored outcome differs from the source's (see Findings). A negative `--prate`, which the argument parser accepts, also makes it differ: the source's slices then count from the end and its attack list is empty (`AsWrittenNegativeRate`).
- Poisoning.PrepareClient: its outcome is `ClientOutcome`'s, so it differs from the source for a `--prate` above 0.8 or below 0, as that line says.
- Poisoning.PrepareClients: the outcomes it stores are `ClientOutcome`'s, so they differ from the source's for a `--prate` above 0.8 or below 0, as that line says.
- Partition.Iid: the model fixes no order inside a pool, so every draw, the first included, is only "some num elements of the pool". The first draw slices the label arg-sort, which is not stable and so fixes no order among the indices of one class. Later draws slice a list rebuilt from a set, whose order Python does not fix.
- Importance.Consolidate: `epsilon` is a parameter; the source passes 0.0001.
- Flagging.AbsorbProfile and Consensus.PoolIndices iterate over maps, whose order the model does not fix. Their results do not depend on the order.
- The data sets, `readdataset` and the network classes are not part of this model. A model is its module list and a forward function from input to trace.
- The four per-client stores of the last round (`x_client`, `y_client`, `normal_list_client`, `anomaly_list_client`) are kept as one map from client index to outcome.
- Hook.TorchHook: hooks are the registered names in order. The model captures through a forward trace, not through callback objects.

## Findings

| source | as written | input that shows it | evidently intended | confidence | as-written member | corrected member |
|---|---|---|---|---|---|---|
| main_poisoned_data_det.py:666-668 | the poisoned features take `int(prate * n)` attack samples, but the labels are sliced from the `int(0.8 * n)` flipped ones only | ten attack samples with `prate = 0.9`: 9 samples and 8 labels | one label 0 per appended attack sample, so features and labels stay aligned for any rate | not executed | Poisoning.AsWrittenCounterexample | Poisoning.PoisonAligned |
