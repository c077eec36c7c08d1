# Grouping replay and scoring: a verified model

This project models the offline evaluation of a network alarm correlator and proves what it promises.

**The replay.** A recorded stream of activations and clears is replayed through the grouper, which decides
for each activation the situation to join and the situations to fold into it. The replay keeps six coupled
maps and a union-find, and closes situations in three ways. `Replay` models one step and whole runs on
values, under an arbitrary grouper; `Partition` says what the final prediction means; `Grouping` models the
appliance's grouper in both of its modes; `Correlation` and `Components` prove what the two together do over
every stream. `Timing` says from the stream alone which situations a run has closed by when, and `Returns` which
alarms come back to the situation they had. `GrouperObject` and `ReplayObject` are the same code in its own, mutable form - shared
accumulators, dictionaries updated in place, path halving - proved to compute the value model.

**The scores.** `Pairs`, `Metrics` and `Scoring` prove the contingency-table scores and the repair-work
counts against the pairs of activations they are about; `StreamRates` counts what is read stream by stream, and
`Readings` counts every number of a report over the activations themselves.
`Outcomes` is what the replay hands to the scoring, whole or restricted to some activations, and `Evaluation`
puts the two together: from recorded streams to a report, and from a perfect score back to the links the
decider accepted. `Sums` holds sums over finite maps, `Sorting` the stable sort that every `sorted` by a key is.

**The search.** `Halving` models the resumable successive-halving search, `Rounds` says what it makes of a
record without how it goes about it, `Ranks` and `Importance` the
tie-averaged ranks and the squared rank correlation read off its first rung.

**Around them.** `OidTree` is the memoised resolution of MIB names, `OrgTree` the tree of agents, `Dataset`
and `Training` the weighting, capping and re-balancing of training rows, `PercentEncoding` and `PathTemplate`
the filling of a route's path, `ToolArguments` the split of a tool's arguments, `BodyLimit` the request-size
middleware, `Latency` the queueing model, `GovernanceCache` the per-request policy cache.

Numbers are exact: floats are reals, times included, and nothing is rounded. Dictionaries whose order does
not matter are maps and are walked in an arbitrary order; where the order of a mapping does matter it is a
sequence. Oracles and parameters stand for what the code calls and does not show: a decider's evidence, the
trials' fits and draws, the samplers and shuffles, square roots, the parsers of the policies.

`dafny verify dfyconfig.toml` checks the whole project.

## Where the code and its documentation differ

- Components mode may answer an alarm that already has a situation with another one, when it is linked to an
  older situation; its own is then folded. What keeps the replay right is weaker than "a placed alarm keeps
  its situation", and `Replay.PlaceKeepsExactly` gives it exactly.
- The depth limit of `Tree.oid` is not only a guard against cycles. The 66th definition of a chain is answered
  `None`, and that `None` is remembered for the whole chain, so later answers depend on earlier calls.
  `OidTree.TruthfulExactlyWhenShallow` gives the exact condition under which none of this is seen.
- `path_for` fills one name after the other. For names without braces the order makes no difference, for any
  values, exactly when no `{` that starts no placeholder stands before a `}` that ends none
  (`PathTemplate.OrderMattersExactlyWhenNested`); for names of any kind, exactly when the template has at most one
  `{` with a `}` behind it (`PathTemplate.OrderMattersExactlyWithTwoPairs`). The routes' templates are text and
  placeholders, and the names are their own, so no route is affected (`PathTemplate.RoutesAreIndifferent`).
- `balance_gaps` divides by zero exactly when a cell weighs nothing among rows that weigh something, as in
  `Training.ZeroCell`. The rows that training builds all weigh something and are never affected
  (`Training.TrainingRowsBalance`).
- A query parameter given as null is not dropped: `split_arguments` hands it to the body, if there is one, as in
  `ToolArguments.NullQueryGoesToTheBody`. No tool listed today has both - the routes with query parameters are
  reads without a body - so none is affected.

## Model

| member | source | states |
|---|---|---|
| Replay.ClosingIsQuiet | eval/synth/evaluate.py:189-210 | None of the three ways to close a situation - a clear with no hold, an expired hold, the idle sweep - ever closes one that holds an active alarm |
| Replay.CloseKeeps | eval/synth/evaluate.py:181-186 | Closing quiet situations keeps the whole invariant of the six coupled maps and the union-find |
| Replay.ClearKeeps | eval/synth/evaluate.py:189-198 | A clear, whatever it closes or marks, keeps the invariant |
| Replay.PrepareKeeps | eval/synth/evaluate.py:200-211 | Expiring the holds and sweeping the idle keeps the invariant |
| Replay.AbsorbAllKeeps | eval/synth/evaluate.py:223-230 | Folding any list of ids - dead, repeated or the landing one - into a live situation moves exactly the members of the live ones and keeps the invariant for all others |
| Replay.PlaceKeepsExactly | eval/synth/evaluate.py:214-242 | Under an arbitrary grouper a placement keeps the invariant if and only if the situation of an alarm already placed is the one landed in or one of those folded |
| Replay.AnswersMove | src/netcorenoc/engine/correlate/grouping.py:111-158 | Any answer that meets the contract of the appliance's grouper does that much |
| Replay.RunKeeps | eval/synth/evaluate.py:156-248 | In every state of every run, under every such grouper: `sit_of` and `members` are inverse, `touched` has the keys of `members`, live ids are their own roots, the root of a placed alarm's latest activation is where the alarm is, every active alarm is in a live situation, no live situation marked as cleared holds an active alarm, and every compared pair is judged rightly |
| Replay.PlaceCounts | eval/synth/evaluate.py:215-222 | An activation opens a situation, joins one its alarm was not in, or stays; the counters of ids and joins move accordingly |
| Replay.PlaceLands | eval/synth/evaluate.py:214-235 | An activation lands in the situation its placement names when that is live, and else in a new one of the next id; its alarm is there from then on, and every other situation named to be folded is live no more |
| Replay.RunRecords | eval/synth/evaluate.py:236-246 | Under every grouper and over every run the compared pairs are those of the recorded activations; joins and opened situations never exceed the activations |
| Replay.RunActivations | eval/synth/evaluate.py:243-246 | Under every grouper and over every run the activations recorded are those of the stream, in order, each as it came |
| Outcomes.PairsTell | eval/synth/evaluate.py:236-241 | The pairs that activations compare: in order, one for each candidate of each that had an earlier activation, the activation first and that candidate's latest earlier one second, judged by incident |
| Replay.RunPlaces | eval/synth/evaluate.py:156-248 | Under a grouper that keeps no contract at all, through every run: a placed alarm is a member of the situation it is placed in, which is live |
| Timing.ClosesExactly | eval/synth/evaluate.py:200-211 | Over every run, from the stream alone: before an activation a live situation is closed if and only if none of its alarms was raised last, and either the last clear of one of them lies the hold back or more, or the last sweep lies 60 s back or more and the last activation that landed in it more than 3600 s |
| Timing.ClearClosesExactly | eval/synth/evaluate.py:189-198 | Over every run: a clear closes a live situation if and only if there is no hold, the alarm is one of its own, and none of them is raised any more |
| Returns.RejoinsExactly | eval/synth/evaluate.py:200-235 | Over every run: an alarm activated before is predicted with its last activation if and only if the situation of that one is live and has not lapsed |
| Returns.RaisedAgain | eval/synth/evaluate.py:189-211 | An alarm whose clear left its situation with nothing raised comes back to it when raised again before the hold is over, unless a sweep is due and nothing landed there for over an hour; from the hold on it does not |
| Returns.ReplayedIsRun | eval/synth/evaluate.py:188-246 | The replay under the appliance's grouper is a run, of the same stream, that keeps the contract asked of a grouper |
| Returns.FreshWithoutEvidence | eval/synth/evaluate.py:214-219 | An alarm placed nowhere and scored against nothing opens a situation of the next id |
| Partition.PlaceRoots | eval/synth/evaluate.py:215-231 | A placement sends the roots of the live situations it folds to the landing one and leaves every other root alone |
| Partition.NeverSeparated | eval/synth/evaluate.py:175-179 | Two activations once predicted together stay together in every later state of every run |
| Partition.ClosedGainsNothing | eval/synth/evaluate.py:181-186 | In every later state of every run a closed situation is closed still, and its activations are exactly those it had: it loses none and gains none |
| Partition.PredIsFinest | eval/synth/evaluate.py:156-248 | Two activations share a final prediction if and only if no labelling that respects every merge performed tells their situations apart: `pred` is the finest such partition |
| ReplayObject.Replayer.Find | eval/synth/evaluate.py:175-179 | Path halving terminates, answers the root, and changes no root |
| ReplayObject.Replayer.Close | eval/synth/evaluate.py:181-186 | Closing one situation in place is closing it in the value replay, the grouper's memory included |
| ReplayObject.Replayer.Clear | eval/synth/evaluate.py:189-198 | A clear in place is the clear of the value replay |
| ReplayObject.Replayer.Prepare | eval/synth/evaluate.py:200-211 | Expiry and idle sweep, closing one situation after another, are closing all at once exactly those that `Timing.ClosesExactly` tells |
| ReplayObject.Replayer.Merge | eval/synth/evaluate.py:223-230 | One merge in place - link the roots, move the members - is the merge of the value replay |
| ReplayObject.Replayer.Place | eval/synth/evaluate.py:214-246 | Executing a placement in place is the placement step of the value replay |
| ReplayObject.Group | eval/synth/evaluate.py:156-248 | The imperative replay of a whole stream, with its mutable maps, union-find and grouper, returns the outcome that the value replay leaves: per activation of the stream, in order, its incident, family, time, whether it is an unrecognised clear, and its final situation; the pairs those activations compare; the joins |
| Outcomes.ReplayedScores | eval/synth/evaluate.py:171-248 | Whatever the stream and the decider, the lists of an outcome are equally long, its pairs are in range, and every pair is judged by incident |
| Outcomes.OutcomeTells | eval/synth/evaluate.py:236-248 | Whatever the stream and the decider, an outcome lists the stream's activations in order, each with its own incident, family, time and clear, and the pairs they compare |
| Outcomes.RestrictKeeps | eval/synth/evaluate.py:353-364 | Restricted to any activations in any order, an outcome keeps what was recorded of each, and its pairs are exactly those compared before with both ends kept, at their new places, judged as fairly |
| Outcomes.RestrictTells | eval/synth/evaluate.py:353-364 | What a restriction holds: the name, the incidents that run alongside and no joins; each kept activation with its incident, family, situation, time and clear; and one pair, in the order compared, for each pair with both ends kept, its ends at the last places that list them |
| Outcomes.FirstHourKeeps | eval/synth/evaluate.py:334-350 | The first hour is the restriction to exactly the activations within the horizon of the first, in order; an outcome without times is left as it is |
| Grouping.FoldReads | src/netcorenoc/engine/correlate/grouping.py:184-200 | After a fold the survivor's evidence towards any situation is the sum of both, and the folded one has none |
| Grouping.FoldSymmetric | src/netcorenoc/engine/correlate/grouping.py:184-200 | Folding keeps the evidence symmetric and never between a situation and itself |
| Grouping.ForgetReads | src/netcorenoc/engine/correlate/grouping.py:206-211 | Forgetting situations drops the evidence from and to them, and no other |
| Grouping.ClusterJoin | src/netcorenoc/engine/correlate/grouping.py:111-137 | In cluster mode a placed alarm stays; any other joins the situation of highest mean evidence - then most pairs, then smallest id - when its sum exceeds the join bias times its pairs, and opens a new one exactly when no situation's does |
| Grouping.ClusterMerge | src/netcorenoc/engine/correlate/grouping.py:137-146 | In cluster mode exactly those other situations are folded that the activation was scored against and whose kept plus new pairs are some, no fewer than the minimum, and of a sum above the merge bias times their number |
| Grouping.MergeNeeds | src/netcorenoc/engine/correlate/grouping.py:144-144 | Nothing is folded on fewer pairs than the minimum, nor with a mean at the merge bias or below |
| Grouping.WeightCounts | src/netcorenoc/engine/correlate/grouping.py:116-123 | The evidence towards a situation is the number of scored pairs whose alarm is placed there, and the sum of theirs |
| Grouping.ComponentsAnswer | src/netcorenoc/engine/correlate/grouping.py:148-158 | In components mode the answer joins the oldest of the alarm's own situation and those of the alarms it is linked to, and folds all the others; with none of these it opens a new one |
| Grouping.PlacementInOrder | src/netcorenoc/engine/correlate/grouping.py:125-158 | The situations to fold come in ascending order, each once; in cluster mode the support lists exactly the situations scored against, each once, with the sum of its evidence over its pairs and their number, best first |
| Grouping.PlaceAnswers | src/netcorenoc/engine/correlate/grouping.py:111-158 | In both modes the grouper joins and folds only situations that hold an alarm, folds nothing when it joins nothing, and joins or folds the alarm's own situation |
| Grouping.OwnMayMove | src/netcorenoc/engine/correlate/grouping.py:148-158 | A placed alarm keeps its own situation in cluster mode always, in components mode exactly when no alarm it is linked to is in an older one; otherwise its own is among those folded |
| Grouping.OwnMoves | src/netcorenoc/engine/correlate/grouping.py:148-158 | A concrete alarm of situation 7 that is answered with situation 3 |
| GrouperObject.Grouper.Place | src/netcorenoc/engine/correlate/grouping.py:111-146 | The mutable grouper answers as the value model, reading the shared accumulators |
| GrouperObject.Grouper.Fold | src/netcorenoc/engine/correlate/grouping.py:184-200 | Folding over shared, mutable accumulators - each one list reachable from both situations - is the fold of the value model and keeps the sharing; into itself, everything comes back |
| GrouperObject.Grouper.Forget | src/netcorenoc/engine/correlate/grouping.py:206-211 | Forgetting a situation drops its evidence from both sides and nothing else |
| GrouperObject.Grouper.Commit | src/netcorenoc/engine/correlate/grouping.py:162-182 | Committing folds what was merged and records the activation's pairs on both sides of one shared accumulator |
| Correlation.ReplayedKeeps | eval/synth/evaluate.py:188-246 | The replay under the appliance's own grouper satisfies the invariant after every prefix of every stream |
| Correlation.EvidenceIsComplete | src/netcorenoc/engine/correlate/grouping.py:162-211 | In cluster mode, at every moment of every stream, the evidence kept between two open situations is that of every pair ever scored across what they have become - through merges, closings and re-raises |
| Correlation.TotalCounts | src/netcorenoc/engine/correlate/grouping.py:162-200 | That evidence is the number of the pairs noted across the two, by what their situations have become, and the sum of theirs |
| Correlation.MergeWeighsEverything | src/netcorenoc/engine/correlate/grouping.py:137-146 | So a merge is decided, if and only if, on all pairs ever scored across the two situations, this activation's included: no fewer than the minimum, and of a sum above the merge bias times their number |
| Correlation.NotesTell | src/netcorenoc/engine/correlate/grouping.py:162-182 | What an activation puts on record: every scored pair whose other alarm is placed elsewhere, in order and each once, with its evidence |
| Components.SituationsAreComponents | src/netcorenoc/engine/correlate/grouping.py:148-158 | In components mode two activations share a situation at the end if and only if they are connected by accepted links |
| Metrics.Contingency | eval/metrics.py:46-50 | The table counts every (predicted, true) pair of labels |
| Pairs.PairsCounted | eval/metrics.py:41-43 | The sum of n-choose-2 over label counts is the number of index pairs i < j with equal labels |
| Metrics.PairCounts | eval/metrics.py:60-67 | The three sums read off the table are the numbers of pairs together in the prediction, in the truth, and in both |
| Metrics.PairwiseF1 | eval/metrics.py:53-77 | The score from the table is the F1 of enumerating all pairs, with the two degenerate cases and the strict zip's failure |
| Metrics.DiceBounds | eval/metrics.py:53-77 | F1 lies between 0 and 1, is symmetric, and is 1 exactly when the same pairs are put together |
| Metrics.DiceTells | eval/metrics.py:68-77 | F1 times the pairs together in either is twice those together in both |
| Metrics.AdjustedRandIndex | eval/metrics.py:80-99 | The score from the table is the chance-corrected agreement of the two sets of pairs |
| Metrics.RandTells | eval/metrics.py:90-99 | With p and q pairs together of t = n (n - 1) / 2, and c in both, the index times t (p + q) - 2 p q is 2 (t c - p q), and 1 where that has no value |
| Metrics.MaxAboveExpected | eval/metrics.py:94-98 | The best index is never below the expected one and equals it only when both partitions are all-together or both all-singletons |
| Metrics.RandBounds | eval/metrics.py:80-99 | The index is at most 1, is 1 exactly for identical partitions, and its denominator is positive whenever it is reached |
| Metrics.RandLower | eval/metrics.py:80-99 | Of any two sets of pairs the index is at least -1, and is -1 exactly when they are two halves of all pairs with nothing in common |
| Metrics.RandAboveMinusOne | eval/metrics.py:80-99 | Two labellings are never such halves: theirs is above -1 |
| Metrics.MinusHalf | eval/metrics.py:80-99 | Two concrete labellings of three items reach -1/2 |
| Metrics.RandSymmetric | eval/metrics.py:80-99 | The index is symmetric |
| Metrics.RenamingKeeps | eval/metrics.py:53-99 | Renaming the predicted labels by any function that is injective on them, and the true ones likewise, changes neither the F1 nor the adjusted Rand index |
| Metrics.OrderIrrelevant | eval/metrics.py:53-99 | Permuting the items changes neither score |
| Scoring.WorkBalances | eval/synth/evaluate.py:301-305 | Merges plus incidents, and moves plus situations, are each the number of non-empty (incident, situation) cells |
| Scoring.NoWorkNoDifference | eval/synth/evaluate.py:301-305 | No repair work is left if and only if prediction and truth put the same activations together |
| Scoring.NothingToRepair | eval/synth/evaluate.py:301-320 | ... if and only if the pairwise F1 is 1, if and only if the adjusted Rand index is 1 |
| Scoring.Gather | eval/synth/evaluate.py:267-279 | The loop over streams pools exactly the activations that are no unrecognised clear and of the family asked for, with the incidents of every situation kept whole |
| Scoring.SituationMetrics | eval/synth/evaluate.py:251-331 | The loops report what the pooled partition and the streams say, number by number, as the five rows of `Readings` tell it |
| Readings.ItemsTell | eval/synth/evaluate.py:267-279 | A report is about exactly the activations that are no unrecognised clear and of the family asked for, stream by stream, in order, each once |
| Readings.StreamsTell | eval/synth/evaluate.py:272-295 | Reported clears, negatives and concurrent incidents are what the streams hold of them; the rate of respected negatives leaves out exactly those whose ends share a situation, and is 1 exactly when there is none; the split-bag rate counts exactly the incidents that share a situation with their anchor, and is 0 exactly when none does |
| Readings.WorkTells | eval/synth/evaluate.py:296-305 | Activations, incidents and situations are counted as such; merges and incidents are together the pairs of an incident and a situation that share an activation; moves and situations are together the pairs of a situation asked about and an incident it holds; the repair rate is merges and moves per incident |
| Readings.ScoresTell | eval/synth/evaluate.py:258-278 | Both scores are those of the pairs of scored activations that share a stream's situation, those that share a stream's incident, and those that share both |
| Readings.RatesTell | eval/synth/evaluate.py:306-320 | Under-merge is the share of incidents that lie in two situations, over-merge that of situations that hold two incidents or, for a family, of its incidents that lie in such a one; the first is 0 exactly when no merge is needed, the second exactly when no move is |
| Scoring.ReportBalances | eval/synth/evaluate.py:299-331 | Without a family filter the reported repair work balances against the cells, and is zero exactly when the reported F1 is 1 and exactly when the reported index is 1 |
| StreamRates.CountsOf | eval/synth/evaluate.py:272-295 | The stream-by-stream loops count clears, asserted negatives and those respected, concurrent incidents and those whose situations meet; `Readings.StreamsTell` says which those are |
| StreamRates.PooledBounds | eval/synth/evaluate.py:280-295 | Both rates are fractions of what they count |
| Scoring.NoWorkRespectsAll | eval/synth/evaluate.py:280-287 | Where no repair work is left every asserted negative was respected |
| Evaluation.Evaluate | eval/synth/report.py:299-303 | Replaying any streams under any decider and scoring what comes out never fails, and reports what the pooled partition and the streams say |
| Evaluation.NoRepairRespectsAll | eval/synth/evaluate.py:280-305 | Of any streams under any decider: where the reported repair work is 0, the reported rate of respected negatives is 1 |
| Evaluation.PerfectExactlyWhenTrue | eval/synth/evaluate.py:251-331 | In components mode, over streams of different names, the reported F1 is 1 - and the index 1, and the repair work 0 - if and only if in every stream the accepted links connect two scored activations exactly when they are of one incident |
| Halving.Run | eval/synth/tuning.py:69-118 | The search appends to the record it was given exactly the trials it fits and hands each to `on_trial`, in order, each with the draw of its index, the capacity of its rung, and the losses and the best round that its fit gave, or failed as its fit did; with an `eta` of 0 it fails exactly when a second rung is due, after the first |
| Rounds.SearchTells | eval/synth/tuning.py:80-118 | Of any record: every trial added is a fit of its own draw, made for a candidate of its rung's round and for none recorded before; every candidate of a round has been run; each round after the first is the best max(1, n // eta) by (loss, index) of the n that finished the one before; and the last round is of the last rung, or no more than one finished it |
| Halving.InterruptionLeavesNoTrace | eval/synth/tuning.py:80-86 | Wherever a run - itself resumed or not - is cut off, resuming from what it had recorded ends in the record it was going to make |
| Halving.AnySubsetResumes | eval/synth/tuning.py:80-118 | Handed any of a full run's trials in any order, the search ends with that run's trials, each once, and the same winner |
| Halving.FromHonest | eval/synth/tuning.py:83-118 | Resumed from any trials of the same search, without repetitions, the record ends as those plus a fresh run's |
| Halving.ScoresAgree | eval/synth/tuning.py:104-114 | A filled rung sorts the same finished trials whatever else and in whatever order the record holds |
| Halving.SurvivorsBeatTheDropped | eval/synth/tuning.py:104-117 | max(1, n // eta) of the n finished candidates advance, and none that is dropped has a smaller loss, nor at the same loss a smaller index, than one that advances |
| Halving.FitsAreBounded | eval/synth/tuning.py:83-118 | At most trials * eta / (eta - 1) + len(rungs) fits, resumed or not |
| Halving.BestWins | eval/synth/tuning.py:121-126 | The winner has the least (loss, index) of the finished trials at the highest rung reached, and there is none exactly when nothing finished |
| Ranks.Ranked | eval/synth/tuning.py:145-156 | The nested loops give each item the number of smaller items plus half the number of other equal ones |
| Ranks.TieEnd | eval/synth/tuning.py:149-151 | The inner loop ends at the last of the ties, whose block then ranks at its middle |
| Ranks.RanksKeepOrder | eval/synth/tuning.py:145-156 | A value is smaller exactly when its rank is |
| Ranks.RanksSeeOrderOnly | eval/synth/tuning.py:145-156 | Ranks depend on the order of the values and nothing else |
| Ranks.RanksSum | eval/synth/tuning.py:145-156 | Whatever the ties, n ranks sum to n (n - 1) / 2 |
| Importance.CauchySchwarz | eval/synth/tuning.py:159-165 | The squared covariance is at most the product of the two variances |
| Importance.RhoSquaredBounds | eval/synth/tuning.py:159-165 | The squared correlation lies between 0 and 1 |
| Importance.RhoTells | eval/synth/tuning.py:159-165 | Over n items the squared correlation, times the two spreads n sum(a a) - sum(a) sum(a), is the square of n sum(a b) - sum(a) sum(b); it is 0 unless both lists vary |
| Importance.SpearmanMeaning | eval/synth/tuning.py:129-165 | Importance lies between 0 and 1, is 0 when the parameter or the loss does not vary, and 1 when the parameter orders the trials as their loss does or in reverse |
| Importance.FirstTells | eval/synth/tuning.py:132-136 | The trials it is read off are those of the first rung that are done with a finite validation loss, in the record's order, and what is ranked is that loss |
| Importance.Importance | eval/synth/tuning.py:129-142 | Nothing for fewer than three finished first-rung trials; otherwise every parameter's squared rank correlation with the loss, or the failure when a trial lacks one of the first trial's parameters |
| OidTree.Tree.Add | tools/trappack_build.py:143-159 | Adding a definition in place: the last one in a module wins there, the first one anywhere wins elsewhere, an unreadable one defines nothing |
| OidTree.ParsedTells | tools/trappack_build.py:143-157 | An assignment defines something exactly when it has words and every later one gives a number; its head is what the first word names, nothing if that is a number, and its arcs are the numbers of all words that give one, the first included, in order |
| OidTree.LastInTheModule | tools/trappack_build.py:158-158 | Over a whole scan, a module's own name means its last readable definition there |
| OidTree.FirstAnywhere | tools/trappack_build.py:159-159 | Over a whole scan, any other name means its first readable definition anywhere |
| OidTree.HomeDefines | tools/trappack_build.py:161-166 | `home` is a module that really defines the name, and the one `oid` reads it in |
| OidTree.Tree.Oid | tools/trappack_build.py:168-187 | The recursion terminates on every graph, and answers and fills the memo as the specification does |
| OidTree.MeaningSteps | tools/trappack_build.py:183-185 | What a name means, with no memo and no limit, is what its parent means with its own arcs appended |
| OidTree.JoinReads | tools/trappack_build.py:185-185 | What is joined reads back: the numbers of the base, then the arcs |
| OidTree.MeaningReads | tools/trappack_build.py:183-185 | Number by number, a name means what its parent means and then its own arcs |
| OidTree.InnerRoots | tools/trappack_build.py:37-57 | The well-known names hang together, each the one above it and an arc more, as do those of `TopRoots` and `InternetRoots` |
| OidTree.ResolveTells | tools/trappack_build.py:168-187 | With a sound memo and enough depth left for the chain, the answer is the true one and the memo stays sound |
| OidTree.TruthfulExactlyWhenShallow | tools/trappack_build.py:168-187 | Every sequence of calls answers truly if and only if no chain that resolves goes through more than 65 definitions |
| OidTree.OrderMatters | tools/trappack_build.py:172-187 | With a chain of 66 the answers depend on the order of the calls: `None` found at the limit is remembered for names that do resolve |
| OidTree.LadderTooTall | tools/trappack_build.py:168-187 | A concrete module of 66 definitions that shows it |
| OidTree.NoneMeansUndefinedOrCyclic | tools/trappack_build.py:172-183 | A name means nothing exactly when its chain runs into an undefined name or comes back to a key it has been through |
| OrgTree.File | src/netcorenoc/api/agent_view.py:136-139 | The grouping loop files every agent under its boss, or under nobody when the boss is not in the map |
| OrgTree.SortInOrder | src/netcorenoc/api/agent_view.py:158-161 | Siblings end up with the higher tier first, and by name within a tier |
| OrgTree.NamesTell | src/netcorenoc/api/agent_view.py:157-161 | Names compare as strings do: one is the start of the other, or they first differ in a smaller character |
| OrgTree.GrowHolds | src/netcorenoc/api/agent_view.py:141-159 | A subtree holds exactly the agents under its head, each once, every one under its own boss; the recursion terminates for every map |
| OrgTree.OrgTree | src/netcorenoc/api/agent_view.py:133-162 | The tree holds exactly the agents from whom a chain of `reports_to` leads to one who reports to nobody in the map, each once, those at the top and everybody else under the agent they report to, the higher tier first and by name |
| OrgTree.EveryoneWhenAcyclic | src/netcorenoc/api/agent_view.py:133-162 | Nobody is missing if and only if no agent is, at any remove, their own boss |
| Dataset.Sample | eval/synth/dataset.py:374-398 | Whatever the sampler keeps, an activation with a known candidate weighs exactly 1, of which each class has its share: first the rows of its own incident, labelled 1, then the others, labelled 0, each class all of its vectors in order or as many as the cap allows, of the same positive weight; without a known candidate none |
| Dataset.ClassTells | eval/synth/dataset.py:382-388 | The two classes hold the vectors of the candidates that are known and of the same incident, or known and of another, in order, and no others |
| Dataset.TruthTells | eval/synth/dataset.py:364-370 | What is known before an activation is, of every alarm seen by then, the incident of its latest one |
| Dataset.IncidentSide | eval/synth/dataset.py:327-336 | The window's edges lie at its fractions of the time from the first activation to the last, taken as one second when shorter, and an incident is in exactly when its first activation lies between them, the edges included |
| Dataset.TrainingRows | eval/synth/dataset.py:339-371 | The rows are, stream by stream and activation by activation, what sampling leaves of those of the side trained on; together they weigh the number of such activations with a candidate seen before; every row is an activation and one of its candidates, labelled by whether that alarm last belonged to the same incident |
| Training.Cap | eval/synth/train.py:142-160 | Every activation is kept wholly or not at all, in order, within the limit, and none is left out that would still fit |
| Training.CapTells | eval/synth/train.py:142-160 | Told from the rows: of those of one stream, time and incident all or none are kept, in order, no more than the limit, and none is left out that, with those beside it, would still fit |
| Training.Masses | eval/synth/train.py:202-205 | The cells' masses sum to the weight of the rows |
| Training.CellTells | eval/synth/train.py:199-200 | A row's cell is its label and which of the five bands its gap lies in, cut at 10, 60, 300 and 1800 |
| Training.BalanceGaps | eval/synth/train.py:182-211 | With weights of any sign: the total is kept, nothing but weights changes, and the cells' masses come to be in proportion to the square roots of the old ones, exactly when every cell weighs more than nothing; it divides by zero exactly when one weighs nothing |
| Training.BalancedTells | eval/synth/train.py:206-211 | Of any two cells the squares of the new masses are in the proportion of the old masses |
| Training.TrainingRowsBalance | eval/synth/train.py:163-172 | The rows that training builds leave no cell without weight, so they are always balanced |
| Training.ZeroCell | eval/synth/train.py:202-210 | Two concrete rows of which one weighs nothing, alone in its cell |
| PathTemplate.PathFor | src/netcorenoc/api/asgi_call.py:55-60 | The loop computes the sequential replacement that the rows below are about |
| PercentEncoding.QuoteRoundTrips | src/netcorenoc/api/asgi_call.py:59-59 | A percent-encoded value decodes to itself, whatever its bytes |
| PercentEncoding.EscapeTells | src/netcorenoc/api/asgi_call.py:59-59 | By ASCII code: letters, digits and `-._~` stay, and any other byte becomes a percent sign and two upper-case hexadecimal digits |
| PercentEncoding.QuoteTells | src/netcorenoc/api/asgi_call.py:59-59 | A value is encoded byte by byte: joined values encode as their joined encodings |
| PathTemplate.ReplaceFills | src/netcorenoc/api/asgi_call.py:59-59 | Replacing a name fills exactly its placeholders, whatever lone braces the template has, as long as they enclose no text that short |
| PathTemplate.PathForSubstitutes | src/netcorenoc/api/asgi_call.py:55-60 | Where no lone `{` stands before a lone `}`, the loop is the simultaneous substitution of all names |
| PathTemplate.OrderMattersExactlyWhenNested | src/netcorenoc/api/asgi_call.py:55-60 | For every template: the order of the values makes no difference, for any values of names without braces, if and only if no lone `{` stands before a lone `}` |
| PathTemplate.OrderMattersExactlyWithTwoPairs | src/netcorenoc/api/asgi_call.py:55-60 | For every template and names of any kind: the order makes no difference, for any values, if and only if there is at most one `{` with a `}` behind it |
| PathTemplate.RoutesAreIndifferent | src/netcorenoc/api/asgi_call.py:55-60 | A template of text and placeholders, as every route has, is one where the order makes no difference |
| PathTemplate.NestedBracesDependOnOrder | src/netcorenoc/api/asgi_call.py:55-60 | A concrete template that no route has, `{{x}y}`, comes out differently in the two orders |
| PathTemplate.SegmentsKept | src/netcorenoc/api/asgi_call.py:55-60 | The filled path of a route has as many segments as the route, each its own pieces filled |
| PathTemplate.WholeSegmentReadsBack | src/netcorenoc/api/asgi_call.py:55-60 | A value that fills a whole segment is read back from the filled path |
| ToolArguments.SplitArguments | src/netcorenoc/api/mcp_tools.py:288-297 | The path holds exactly the path parameters given, the query exactly the query parameters given with a value, the body, if there is one, exactly the rest; every argument sent keeps its value |
| ToolArguments.NothingIsLostExactly | src/netcorenoc/api/mcp_tools.py:288-297 | The three put together are the arguments again if and only if the tool has a body or every argument is a path parameter or a query parameter with a value |
| ToolArguments.NullQueryGoesToTheBody | src/netcorenoc/api/mcp_tools.py:293-296 | A concrete tool with a body, and a null query parameter that travels in it |
| BodyLimit.Buffer | src/netcorenoc/api/body_limit.py:67-85 | On every stream: refused exactly when the declared length or the request's bytes exceed the limit, and otherwise the application is called with a whole request within the limit and the stream untouched |
| BodyLimit.BytesTell | src/netcorenoc/api/body_limit.py:74-78 | The bytes of a stream are those of its body messages |
| BodyLimit.Replay.Receive | src/netcorenoc/api/body_limit.py:79-83 | The application's reads return the client's messages in order, buffered first |
| BodyLimit.Counter.Receive | src/netcorenoc/api/body_limit.py:94-107 | One counted read, given all that was read before |
| BodyLimit.CountedHolds | src/netcorenoc/api/body_limit.py:94-107 | On a wider route the delivered bytes never exceed the ceiling, a request within it passes unchanged, and after the first cut every later body message becomes a disconnect |
| BodyLimit.CountedTells | src/netcorenoc/api/body_limit.py:94-107 | A body message that takes the bytes so far beyond the ceiling is read as a disconnect, and every other as it is |
| Latency.SyntheticLatencies | eval/harness.py:167-177 | Each latency is the closed-form finish less the arrival - the longest busy period, or the clock's start at 0 - and at least the service time; each trap is done at least the service time after the one before |
| Latency.FinishMeaning | eval/harness.py:167-177 | Of every trap, the last and the only one included: the finish is determined, is at least the service time after the arrival, and for arrivals from 0 on is the longest busy period alone |
| Latency.FinishSteps | eval/harness.py:172-176 | A trap finishes 0.3 ms after the later of its arrival and the finish before it, the first of its arrival and 0 |
| Latency.FinishesGrow | eval/harness.py:172-176 | A finish is at least the service time after the one before |
| GovernanceCache.GovernancePolicies.LoadKind | src/netcorenoc/api/governance_cache.py:61-82 | One kind reloaded exactly when its pointer moved: then it is the parse of the row it names, or of `<missing>`, or nothing without one, and a malformed one is queued with its reason |
| GovernanceCache.GovernancePolicies.Load | src/netcorenoc/api/governance_cache.py:55-59 | After any run of loads each document cached is the parse of the row now active, and what is queued is exactly the fallbacks of that run |
| GovernanceCache.OncePerChange | src/netcorenoc/api/governance_cache.py:81-82 | Over any run of loads the queued reasons of a kind are, in order, those of exactly the loads that find the kind's pointer moved and the document it names malformed |

## Left out

- Floating-point rounding, `round`, NaN and infinite evidence, and the `seconds` of a trial; a loss that is not
  finite is one value, which only ever excludes a trial.
- Where evidence comes from: the scorers, the engine, the store, and the composition and recording of streams.
- ReplayObject.Group: the parallel lists of an outcome are one list of activation records until it returns, and
  the alarm is marked active when it lands rather than before it is placed, which nothing in between reads.
- Evaluation.PerfectExactlyWhenTrue: asks that no two streams have one name; labels are qualified by it, so the
  scores of two streams of one name are those of their union.
- Metrics.RandAboveMinusOne: the least index that two labellings reach is not determined; -1/2 is reached.
- GrouperObject.Grouper: the operator's `merged` and `prune` are not modelled; they are `_fold` and `forget` again.
- The gap that comes with a concurrent incident's anchor, which no score reads.
- `entity_accuracy`, `root_top1`, `dedup_ratio` and `percentile` are comprehensions or single quotients and would
  add easy members.
- Halving.AnySubsetResumes: asks that the record handed in repeats no trial; the search itself never records one
  twice.
- Halving.FitsAreBounded: is about halving proper, `eta` of at least 2; the search also runs for other values.
- The text of MIB files: `OidTree` starts from assignments already split into words, each word classified as the
  arc pattern does, and from a tree that is built before it is asked.
- OrgTree.OrgTree: a node is an id and its reports; its descriptive fields are copied through. An agent's `id` is
  its key in the map.
- Dataset.Sample: the generator is any function that draws the right number of a class's vectors; that it draws
  distinct positions, and uniformly, is not used. At least one row per class is asked for, as every caller does.
- Training.Cap: the seeded shuffle is any order of the distinct keys.
- Training.BalanceGaps: the square root is any function that is one on positive numbers; rows it makes complex are one
  outcome.
- BodyLimit.Buffer: messages other than body messages are one kind; headers, the table of wider routes, and the
  sending of the refusal are not modelled.
- The wording of warnings, HTTP, PostgreSQL, asyncio scheduling, and the regular expressions over text.
