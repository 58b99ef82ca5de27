# Verified models of the language-model, aligner and random-number code

This project models, in Dafny, the algorithmic code that Jasper vendors: the lattice
search, smoothing, interpolation and n-gram storage of mitlm, the many-to-many aligner
m2m-aligner, and the Mersenne Twister and Good-Turing discounting of cmuclmtk. Each
operation is written in the form the source gives it (loops over tables, classes with
mutable fields) and is proved against an independent description: an enumeration of all
paths, of all segmentations or of all edit scripts, a finite map, a recurrence, or the
recursive backoff probability.

| part | modules |
|---|---|
| shared | `Arithmetic`, `Sums`, `Distinctness`, `Sequences`, `Sorting` |
| lattice | `LatticeGraph`, `LatticeEntries`, `EditDistance`, `LatticeOracle`, `OracleSearch`, `OracleBacktrace`, `NBestSearch`, `LatticeFlow`, `LatticeSweeps`, `Lattice` |
| aligner | `Segmentation`, `Joining`, `AlignmentSums`, `AlignmentFlow`, `AlignmentCounts`, `AlignmentSweeps`, `NBestAlignment`, `NBestTable`, `Backtracking`, `ViterbiAlignment`, `AlignmentScores`, `Maximization`, `Aligner` |
| Kneser-Ney | `Backoff`, `KneserNey`, `KneserNeyModel`, `KneserNeySmoothing`, `MaskedEstimation`, `LanguageModel` (file `NgramLM.dfy`) |
| interpolation | `Interpolation`, `InterpolatedNgramLM`, `KneserNeyInterpolation` |
| n-gram storage | `Probing`, `HashIndex`, `StaleIndex`, `NgramVector`, `Vocab`, `NgramTrie`, `BackoffLinks`, `CorpusCounts`, `CorpusScan`, `NgramModel`, `SortedLinks`, `CorpusModel`, `LoadedModel`, `StrandedCorpus`, `ModelMerging`, `Perplexity` |
| compact cores | `MersenneTwister`, `GoodTuring` |

The main results:

- The n-best search emits the scores of the n lightest lattice paths, the oracle search
  terminates with the least edit cost over all paths and alignments, the oracle rate is a
  lower bound on the decoded one (exactly when the decoded words can be said by a path),
  and the arc posteriors are a unit flow.
- The pruned n-best alignment is exact, its scores are logarithms of the likelihoods of the
  pieces, one-best alignment agrees with it, expected counts
  conserve symbols, and maximization normalises.
- A corpus loaded from token lines has exact counts and suffix closure. Its suffix links are
  right, whatever the hash function, exactly when no suffix is stranded by a sort that only
  renames, and always up to order two. From a model with right links, Kneser-Ney estimates
  normalise after every history of every order; the masked estimators, and interpolations of
  them, agree with the full ones on every requested entry.
- The hash tables refine a finite map for every hash function and every run of
  additions, lookups and reservations; sorting,
  renaming and merging keep every word string.
- The weights summed from the counts of a text equal the recursive backoff score of its
  tokens.
- The in-place generator refines the infinite MT19937 recurrence, and accepted Good-Turing
  discounts remove exactly the mass of the singletons.

Where the code does not do what its setting suggests, the model follows the code:

- Decoding drops the last arc and all tags, also when their word is not word 0, and can
  then beat the oracle rate (`LatticeOracle.TagsCanBreakTheBound`). `OracleBoundExactly`
  says when it cannot, and `OracleBelowDecoded` gives the bound that always holds.
- `NgramVector::Sort` renames first and sorts only when some n-gram is followed by a larger
  one. Otherwise it returns with a stale index and, for more than one n-gram, in descending
  order. `NgramVector.SortKeepsIndex` says exactly when the index stays right. `LoadCorpus`
  and `SortModel` then look suffixes up in such an index: `SortedLinks.LinksRightExactly` says
  exactly when all links come out right, and `StrandedCorpus.LinksCanFail` gives a corpus of
  one line where one can come out wrong. `Vocab::Sort` skips the sort under the same test, but
  its index stays right.
- `viterbi_align` stays in its backtrace for ever when a probability above one lifts a sum above
  the sentinel from a cell nothing reaches. `ViterbiAlignment.ViterbiAlign` ends for every pair
  of sequences if no probability has a positive logarithm, and `PositiveNeverEnds` gives a pair
  for which it does not as soon as one has.
- `KneserNeySmoothing::Estimate` tests `fabs(params[i] > 100)`, so only large positive feature
  parameters are refused (`MaskedEstimation.DiscountsFor`).
- `KneserNeySmoothing::Initialize` divides by `n[1] + 2 n[2]`, which may be zero;
  `KneserNeySmoothing.DiscountsUsable` says exactly when the factors are numbers.
- `_EstimateBows` divides by zero when the seen words take the whole lower distribution;
  `Interpolation.BowNormalises` says what any weight can then achieve.
- `ComputeEntropy` takes one off the number of words per n-gram of zero probability, not
  per token; `Perplexity.ZerosCountedOnce` says exactly when that is the same.

## Model

| member | source | states |
|---|---|---|
| LatticeGraph.ViterbiTableIsExact | jaspervc/mitlm-0.4.1/src/Lattice.cpp:766-789 | every entry of the backward table is the least weight of a path from its node to the final node, and following the recorded arcs takes such a path; weights of either sign |
| Lattice.Lattice.ReverseViterbiSearch | jaspervc/mitlm-0.4.1/src/Lattice.cpp:766-789 | one sweep over the arcs from last to first fills the table so that every node holds its best arc and the score through it |
| Lattice.FollowBestArcs | jaspervc/mitlm-0.4.1/src/Lattice.cpp:791-806 | the walk along the best arcs returns the words of that path without the last arc and without skipped tags |
| Lattice.Lattice.FindBestPath | jaspervc/mitlm-0.4.1/src/Lattice.cpp:791-806 | the score is that of node 0, the words are those of the best path from node 0 |
| NBestSearch.NBestExpand | jaspervc/mitlm-0.4.1/src/Lattice.cpp:829-834 | replacing a queued partial path by its one-arc extensions keeps the invariant: queued paths are pairwise incomparable and every complete path is listed or extends a queued one |
| NBestSearch.UnlistedIsHeavier | jaspervc/mitlm-0.4.1/src/Lattice.cpp:821-836 | with the exact remaining scores, no complete path still to come is lighter than the least queue entry |
| NBestSearch.NBestEmit | jaspervc/mitlm-0.4.1/src/Lattice.cpp:825-827 | popping a complete path that is least in the queue lists the next lightest path |
| NBestSearch.ExpandShrinks | jaspervc/mitlm-0.4.1/src/Lattice.cpp:828-835 | every expansion takes a node off the finite unfolding of the graph, so the unpruned search ends |
| Lattice.ExpandPath | jaspervc/mitlm-0.4.1/src/Lattice.cpp:828-835 | the expansion step keeps the search invariant and makes the measure smaller |
| Lattice.SearchPaths | jaspervc/mitlm-0.4.1/src/Lattice.cpp:816-837 | the emitted scores are those of the n lightest complete paths, in order |
| Lattice.Lattice.FindNBestPaths | jaspervc/mitlm-0.4.1/src/Lattice.cpp:808-837 | the k-th score emitted is the k-th smallest weight over all paths from node 0 to the final node; n = 0 wraps around to 2^64 |
| LatticeGraph.NBestScoresUnique | jaspervc/mitlm-0.4.1/src/Lattice.cpp:808-837 | the n best scores are a function of the graph: the order in which ties are popped does not matter |
| LatticeOracle.OracleIsClosestPath | jaspervc/mitlm-0.4.1/src/Lattice.cpp:696-764 | the cost of a cheapest run of the search over (node, reference position) is the least edit distance, with word 0 free, between the reference and the words of a complete path |
| LatticeOracle.OracleAtMost | jaspervc/mitlm-0.4.1/src/Lattice.cpp:738-760 | the oracle rate is at most the longer of any complete path and the reference, and at most the number of positions at which their words differ when they are equally long |
| LatticeOracle.RunHasPath | jaspervc/mitlm-0.4.1/src/Lattice.cpp:738-760 | every run of moves projects to a lattice path that is at most its cost away from the reference |
| LatticeOracle.PathHasRun | jaspervc/mitlm-0.4.1/src/Lattice.cpp:738-760 | every path can be aligned with the reference by a run that costs exactly the edit distance |
| OracleSearch.InvStep | jaspervc/mitlm-0.4.1/src/Lattice.cpp:711-760 | settling a popped state and pushing its moves keeps the search invariant, whatever the signs of the arc weights |
| OracleSearch.InvSkip | jaspervc/mitlm-0.4.1/src/Lattice.cpp:711-713 | dropping an entry whose state is settled keeps the invariant |
| OracleSearch.FirstCompleteIsOracle | jaspervc/mitlm-0.4.1/src/Lattice.cpp:718-736 | the first entry popped at the final node with the reference used up carries the least cost of any run |
| OracleSearch.QueueNeverEmpty | jaspervc/mitlm-0.4.1/src/Lattice.cpp:702-763 | the queue cannot run dry before a complete entry is popped: the exception at the end is unreachable |
| Lattice.PushSuccessors | jaspervc/mitlm-0.4.1/src/Lattice.cpp:738-760 | a popped entry pushes exactly the matches, substitutions, the deletion, the insertions and the free traversals of word 0 |
| Lattice.Lattice.FindOraclePath | jaspervc/mitlm-0.4.1/src/Lattice.cpp:696-764 | the search ends (unsettled states, then queue size), never throws, sets the oracle rate to the least edit cost over all paths and alignments, and reads a path back whose last arc leads to the final node |
| OracleBacktrace.SearchExpand | jaspervc/mitlm-0.4.1/src/Lattice.cpp:711-760 | every recorded parent comes before its state in (node, reference position), and an arc connects the two nodes when they differ, although the deletion push records the start of the last arc |
| OracleBacktrace.ArcAhead | jaspervc/mitlm-0.4.1/src/Lattice.cpp:724-729 | the scan for an arc into a node starts at or before such an arc, also when the parent is missing and reads as (0, 0) |
| OracleBacktrace.ReadBack | jaspervc/mitlm-0.4.1/src/Lattice.cpp:719-733 | the backtrace ends, every scan finds its arc, and the first arc read leads to the final node |
| Lattice.Lattice.SetReferenceText | jaspervc/mitlm-0.4.1/src/Lattice.cpp:209-226 | the reference is the tokens without skipped tags, and the oracle rate is brought up to date for it |
| Lattice.SpokenToken | jaspervc/mitlm-0.4.1/src/Lattice.cpp:219-220 | a token is spoken unless it is a tag and tags are skipped |
| Lattice.SpokenTokensConcat | jaspervc/mitlm-0.4.1/src/Lattice.cpp:214-222 | the words of a text are those of its parts in order |
| EditDistance.DistIsMinimum | jaspervc/mitlm-0.4.1/src/Lattice.cpp:272-284 | the recursive edit distance is the least cost of an edit script: some script attains it and none costs less |
| EditDistance.DistWithin | jaspervc/mitlm-0.4.1/src/Lattice.cpp:272-284 | the distance lies between the difference of the lengths and the longer length |
| EditDistance.DistAtMostDiffering | jaspervc/mitlm-0.4.1/src/Lattice.cpp:277 | equally long sequences are at most as far apart as they differ position by position |
| EditDistance.DistZero | jaspervc/mitlm-0.4.1/src/Lattice.cpp:277-282 | only equal sequences are at distance zero |
| EditDistance.FreeToEmpty | jaspervc/mitlm-0.4.1/src/Lattice.cpp:751-760 | into an empty reference every word but word 0 is inserted at cost one |
| EditDistance.UpdateRow | jaspervc/mitlm-0.4.1/src/Lattice.cpp:273-284 | overwriting one row in place turns the distances to one prefix of the hypothesis into those to the next |
| EditDistance.Distance | jaspervc/mitlm-0.4.1/src/Lattice.cpp:268-293 | the one-row in-place computation with its two shortcuts returns the edit distance |
| LatticeOracle.OracleBelowDecoded | jaspervc/mitlm-0.4.1/src/Lattice.cpp:250-294 | for every lattice the oracle rate is at most the rate of any decoded path plus the number of its dropped arcs that carry a real word |
| LatticeOracle.OracleIsLowerBound | jaspervc/mitlm-0.4.1/src/Lattice.cpp:250-294 | when word 0 is the only word that decoding drops, the oracle rate is a lower bound on the rate of every decoded path |
| EditDistance.Triangle | jaspervc/mitlm-0.4.1/src/Lattice.cpp:250-294 | the edit distance obeys the triangle inequality, with word 0 free on the first leg |
| LatticeOracle.OracleBoundExactly | jaspervc/mitlm-0.4.1/src/Lattice.cpp:250-294 | for a complete path, decoding it never beats the oracle rate on any reference if and only if some complete path says the decoded words, up to word 0 |
| LatticeOracle.TagsCanBreakTheBound | jaspervc/mitlm-0.4.1/src/Lattice.cpp:799-801 | with a tag that is a real word the bound fails: a two-arc lattice with decoded rate 0 and no run of cost 0 |
| Lattice.Lattice.ComputeWER | jaspervc/mitlm-0.4.1/src/Lattice.cpp:250-294 | the rate is the distance of the words of a lightest path to the reference, and is at least the oracle rate when only word 0 is dropped |
| LatticeFlow.PathsFromEnumerate | jaspervc/mitlm-0.4.1/src/Lattice.cpp:304-334 | the recursive enumeration lists exactly the paths to the final node, each once: the reference the scores are measured against |
| LatticeFlow.BackwardIsPathSum | jaspervc/mitlm-0.4.1/src/Lattice.cpp:316-334 | the backward mass of a node is the sum over all paths to the final node of the product of their arc probabilities |
| LatticeFlow.CutStep | jaspervc/mitlm-0.4.1/src/Lattice.cpp:304-314 | moving a cut past a node exchanges the mass of its incoming arcs for that of its outgoing ones |
| LatticeFlow.TotalsAgree | jaspervc/mitlm-0.4.1/src/Lattice.cpp:336-345 | the forward total at the final node equals the backward total at node 0 |
| LatticeFlow.UnitFlow | jaspervc/mitlm-0.4.1/src/Lattice.cpp:336-352 | forward total = backward total = sum of path products, and the posteriors of the arcs across any cut add up to 1 |
| Lattice.Lattice.ComputeForwardScores | jaspervc/mitlm-0.4.1/src/Lattice.cpp:304-314 | the in-place sweep computes the forward mass of every node |
| Lattice.Lattice.ComputeBackwardScores | jaspervc/mitlm-0.4.1/src/Lattice.cpp:316-334 | the in-place sweep with one running total computes the backward mass of every node |
| Lattice.Lattice.ComputePosteriorProbs | jaspervc/mitlm-0.4.1/src/Lattice.cpp:336-352 | the posterior of every arc, and over every cut they add up to 1 |
| Lattice.IndexArcs | jaspervc/mitlm-0.4.1/src/Lattice.cpp:151-165 | the start of every node's arcs in the sorted array, and the placeholder ends replaced by the new final node |
| LatticeSweeps.FirstArcsIndex | jaspervc/mitlm-0.4.1/src/Lattice.cpp:151-165 | the index delimits exactly the arcs of every node when no node is a dead end |
| Lattice.Lattice.LoadLattice | jaspervc/mitlm-0.4.1/src/Lattice.cpp:108-165 | the first bad entry decides the error; otherwise the arcs are a sorted rearrangement of the entries, and the object is usable when arcs go forward and no node is a dead end |
| LatticeEntries.AcceptedExactly | jaspervc/mitlm-0.4.1/src/Lattice.cpp:117-137 | a file is accepted exactly when every transition goes forward by a known word |
| LatticeEntries.FirstWrongDecides | jaspervc/mitlm-0.4.1/src/Lattice.cpp:122-126 | otherwise the first that does not decides the error, its direction before its word |
| LatticeEntries.EntryBecomes | jaspervc/mitlm-0.4.1/src/Lattice.cpp:117-145 | which arc each entry becomes, by its position among the transitions and final states |
| Lattice.ArrangedKeeps | jaspervc/mitlm-0.4.1/src/Lattice.cpp:148-165 | every arc read is loaded with its start, word and weight, and leads where it did or to the final node |
| Segmentation.MovesAre | jaspervc/m2m-aligner-1.2/mmEM.cpp:496-549 | the nested loops try every allowed move, and each once |
| Segmentation.MovesInto | jaspervc/m2m-aligner-1.2/mmEM.cpp:762-828 | for one cell the loops with their bounds yield exactly the allowed moves that fit, in order |
| Segmentation.PiecesRoundTrip | jaspervc/m2m-aligner-1.2/mmEM.cpp:1024-1054 | the pieces of a legal segmentation put together again are the two sequences |
| Joining.JoinOne | jaspervc/m2m-aligner-1.2/util.h:32-48 | joining one token gives the token |
| Joining.JoinSplits | jaspervc/m2m-aligner-1.2/util.h:32-48 | joining puts tokens in their order with one delimiter between neighbours |
| Joining.KeyStarts | jaspervc/m2m-aligner-1.2/mmEM.cpp:501-519 | the key of an empty stretch is the null symbol, that of one token the token |
| Joining.KeySplits | jaspervc/m2m-aligner-1.2/mmEM.cpp:537-538 | the key of a longer stretch is the keys of its parts, in order |
| AlignmentSums.SegmentationsAre | jaspervc/m2m-aligner-1.2/mmEM.cpp:380-450 | the recursive enumeration lists exactly the legal move sequences into a cell, each once |
| AlignmentSums.AlphaIsPathSum | jaspervc/m2m-aligner-1.2/mmEM.cpp:380-450 | the forward sum of a cell is the sum over all segmentations of the product of their move probabilities |
| AlignmentSums.EMMovesAre | jaspervc/m2m-aligner-1.2/mmEM.cpp:496-549 | the sums and counts use pairs of stretches of any lengths up to the limits |
| AlignmentSweeps.ForwardCell | jaspervc/m2m-aligner-1.2/mmEM.cpp:396-447 | the loops over the moves into a cell compute its forward sum |
| AlignmentSweeps.ForwardEval | jaspervc/m2m-aligner-1.2/mmEM.cpp:380-450 | the table filled in place holds the forward sum of every cell |
| AlignmentSweeps.BackwardEval | jaspervc/m2m-aligner-1.2/mmEM.cpp:308-378 | the table filled in place holds the backward sum of every cell |
| AlignmentFlow.TotalsAgree | jaspervc/m2m-aligner-1.2/mmEM.cpp:483-490 | the forward total of the last cell equals the backward total of the first |
| AlignmentFlow.CellBalance | jaspervc/m2m-aligner-1.2/mmEM.cpp:492-551 | the mass through every cell enters and leaves unchanged, except at the two corners |
| AlignmentFlow.GridBalance | jaspervc/m2m-aligner-1.2/mmEM.cpp:492-551 | for any linear weighing of the moves, the weighed mass of all moves is the difference of potential between the corners times the total |
| AlignmentCounts.CountsAdd | jaspervc/m2m-aligner-1.2/mmEM.cpp:505-508 | every entry of the table grows by exactly the amounts that carry its key |
| AlignmentCounts.Conservation | jaspervc/m2m-aligner-1.2/mmEM.cpp:465-553 | when the total is not zero, expected counts weighed by the lengths of their moves add up exactly to the lengths of x and of y |
| AlignmentSweeps.CountGrid | jaspervc/m2m-aligner-1.2/mmEM.cpp:492-551 | the nested loops add exactly the expected count of every move at every cell |
| Aligner.ExpectationNonNegative | jaspervc/m2m-aligner-1.2/mmEM.cpp:465-553 | an expectation step cannot make a count negative |
| Aligner.MmEM.Expectation | jaspervc/m2m-aligner-1.2/mmEM.cpp:465-553 | false exactly when the pair has no probable segmentation, and then nothing changes; otherwise the counts grow by the expected counts of all moves |
| Maximization.GroupsSumToOne | jaspervc/m2m-aligner-1.2/mmEM.cpp:268-279 | after normalising, the conditional probabilities given y, those given x, or the joint ones add up to one over every group |
| Maximization.ProbabilitiesInRange | jaspervc/m2m-aligner-1.2/mmEM.cpp:268-290 | counts that are not negative give probabilities from 0 to 1 |
| Maximization.TotalNotZero | jaspervc/m2m-aligner-1.2/mmEM.cpp:256-278 | the joint total cannot vanish when the marginals that are checked do not |
| Maximization.AddUp | jaspervc/m2m-aligner-1.2/mmEM.cpp:242-250 | the first pass computes both marginals of every key and the total |
| Maximization.Maximize | jaspervc/m2m-aligner-1.2/mmEM.cpp:242-290 | the second pass divides by the marginals; it stops exactly when a marginal of a stored key is zero |
| Aligner.MmEM.Maximization | jaspervc/m2m-aligner-1.2/mmEM.cpp:232-306 | on success the probabilities are normalised, at most one, and the counts are cleared; otherwise nothing changes |
| NBestAlignment.UncoveredBlock | jaspervc/m2m-aligner-1.2/mmEM.cpp:762-828 | a segmentation pruned at a predecessor is matched at the cell by nBest candidates that are no worse |
| NBestAlignment.BlockDominates | jaspervc/m2m-aligner-1.2/mmEM.cpp:830-836 | a set of nBest candidates that are no worse survives, in effect, the choice of the best nBest |
| NBestAlignment.KeptCellGood | jaspervc/m2m-aligner-1.2/mmEM.cpp:830-836 | pruning a cell keeps the invariant: its entries are traced, distinct, and every segmentation left out is dominated |
| NBestTable.CellGood | jaspervc/m2m-aligner-1.2/mmEM.cpp:750-837 | a cell computed from good predecessors is good |
| NBestTable.LinksStay | jaspervc/m2m-aligner-1.2/mmEM.cpp:765-825 | no later write touches a cell another entry points back to |
| NBestTable.FindCandidates | jaspervc/m2m-aligner-1.2/mmEM.cpp:762-828 | the loops collect exactly the continuations of the entries of all predecessors |
| NBestTable.FillTable | jaspervc/m2m-aligner-1.2/mmEM.cpp:730-838 | every cell ends up with nBest best segmentations, linked to where they came from |
| NBestAlignment.ViterbiMovesAre | jaspervc/m2m-aligner-1.2/mmEM.cpp:762-812 | the searches leave out pairs of equally long stretches of several tokens unless they are allowed |
| AlignmentScores.TotalIsLog | jaspervc/m2m-aligner-1.2/mmEM.cpp:768-817 | the total of a legal segmentation is the logarithm of the product, over its pairs of pieces, of their probability to the power of the longer piece's length, and minus infinity when one is impossible |
| AlignmentScores.EvenTotal | jaspervc/m2m-aligner-1.2/mmEM.cpp:768-817 | when all pairs have probability p the total is c ln p with c between the longer length and all tokens |
| Backtracking.Backtrack | jaspervc/m2m-aligner-1.2/mmEM.cpp:851-896 | every link followed meets a live entry, the walk ends, and the two rows shown are those of the entry's segmentation |
| Backtracking.ShowLaws | jaspervc/m2m-aligner-1.2/mmEM.cpp:864-886 | nothing shows as the null symbol, a token as itself, and longer stretches with one separator between neighbours |
| Backtracking.NViterbiAlign | jaspervc/m2m-aligner-1.2/mmEM.cpp:728-908 | the returned scores are the nBest largest totals above the sentinel over all legal segmentations, best first, each segmentation once, and every alignment shown has exactly its score |
| AlignmentScores.ScoresAreLogs | jaspervc/m2m-aligner-1.2/mmEM.cpp:728-908 | every returned score is the logarithm of the likelihood of its own pieces |
| Aligner.MmEM.NViterbi | jaspervc/m2m-aligner-1.2/mmEM.cpp:728-908 | the same under the current probabilities |
| ViterbiAlignment.CellIsBest | jaspervc/m2m-aligner-1.2/mmEM.cpp:939-1008 | the best over the moves into a cell bounds all segmentations that reach it, and its back pointer leads to the cell it continues |
| ViterbiAlignment.Retrace | jaspervc/m2m-aligner-1.2/mmEM.cpp:1024-1051 | every backtrace step from a cell above the sentinel makes progress |
| ViterbiAlignment.ViterbiAlign | jaspervc/m2m-aligner-1.2/mmEM.cpp:910-1057 | the score bounds all legal segmentations; whenever the backtrace ends, as it does when no probability has a positive logarithm, it is their largest total and the rows show one that attains it; the sentinel and no rows when there is none |
| AlignmentScores.BestIsMostLikely | jaspervc/m2m-aligner-1.2/mmEM.cpp:910-1057 | a best alignment has the largest likelihood of all legal segmentations without an impossible piece |
| ViterbiAlignment.PositiveNeverEnds | jaspervc/m2m-aligner-1.2/mmEM.cpp:1024-1051 | as soon as some probability has a positive logarithm, some pair of words lifts the score above the sentinel though no segmentation has it, so that the backtrace cannot end; without one it always ends |
| ViterbiAlignment.AgreesWithNBest | jaspervc/m2m-aligner-1.2/mmEM.cpp:728-1057 | one-best and n-best agree: both find an alignment or neither does, and the best scores are equal |
| Aligner.MaximizedInRange | jaspervc/m2m-aligner-1.2/mmEM.cpp:232-306 | what maximization leaves satisfies the condition one-best alignment needs |
| Aligner.MmEM.Viterbi | jaspervc/m2m-aligner-1.2/mmEM.cpp:910-1057 | one-best alignment under the current probabilities; it ends when they are at most one |
| KneserNey.EffCountPositive | jaspervc/mitlm-0.4.1/src/KneserNeySmoothing.cpp:53-71 | effective counts are positive exactly for the n-grams that occur, when counts are suffix-closed |
| KneserNeySmoothing.ComputeEffCounts | jaspervc/mitlm-0.4.1/src/KneserNeySmoothing.cpp:53-71 | left-branch counts, with the original count for n-grams without left context and at the highest order |
| KneserNey.EffCountIs | jaspervc/mitlm-0.4.1/src/KneserNeySmoothing.cpp:53-71 | effective counts: the number of occurring n-grams one word longer that end in the n-gram, or the count itself when there are none or at the top order |
| KneserNeySmoothing.ComputeInvHistCounts | jaspervc/mitlm-0.4.1/src/KneserNeySmoothing.cpp:78-83 | the inverse of the weighted count of every history, 0 for an empty one |
| KneserNeySmoothing.CountCounts | jaspervc/mitlm-0.4.1/src/KneserNeySmoothing.cpp:86-88 | how many effective counts equal each number below the length of the table |
| KneserNeySmoothing.CountOfCountIs | jaspervc/mitlm-0.4.1/src/KneserNeySmoothing.cpp:88 | a count of counts is how often the count occurs |
| KneserNeySmoothing.EstimateDiscounts | jaspervc/mitlm-0.4.1/src/KneserNeySmoothing.cpp:85-98 | the discount factors, clipped to [0, i]; an undefined quotient stays undefined |
| KneserNeySmoothing.DiscountSolves | jaspervc/mitlm-0.4.1/src/KneserNeySmoothing.cpp:89-98 | which number each factor a is: (i - a) n_i (n_1 + 2 n_2) = (i + 1) n_1 n_(i + 1), cut off at zero, and i when no n-gram has count i |
| KneserNeySmoothing.FirstDiscount | jaspervc/mitlm-0.4.1/src/KneserNeySmoothing.cpp:89-98 | the factor for count one is n_1 / (n_1 + 2 n_2) |
| KneserNeySmoothing.DiscountsUsable | jaspervc/mitlm-0.4.1/src/KneserNeySmoothing.cpp:89-98 | the factors are numbers exactly when some n-gram has count one or two or none has a count from three up to the order of discounting, and then each is between 0 and its count |
| Backoff.BackoffSum | jaspervc/mitlm-0.4.1/src/KneserNeySmoothing.cpp:211-219 | the total of a backoff distribution is the lower total times the backoff weight plus the gains of the stored n-grams |
| Backoff.SuffixProb | jaspervc/mitlm-0.4.1/src/KneserNeySmoothing.cpp:211-219 | the lower probability read through the suffix link is the recursive backoff probability of the word after the shortened history |
| KneserNey.SharesAddUp | jaspervc/mitlm-0.4.1/src/KneserNeySmoothing.cpp:206-219 | backoff weight and discounted frequencies of a history share out exactly one |
| KneserNey.LevelNormalises | jaspervc/mitlm-0.4.1/src/KneserNeySmoothing.cpp:196-220 | after a history whose lower distribution adds up to one, the interpolated one does too |
| KneserNey.DiscountIs | jaspervc/mitlm-0.4.1/src/KneserNeySmoothing.cpp:204 | counts up to the order of discounting have their own discount, larger ones the last |
| KneserNeyModel.BaseNormalises | jaspervc/mitlm-0.4.1/src/NgramLM.cpp:298-302 | order 0 is a distribution, over the whole vocabulary or over the words that occur |
| KneserNeyModel.BaseAgrees | jaspervc/mitlm-0.4.1/src/KneserNeySmoothing.cpp:212-215 | the special case for unigrams of an open vocabulary is interpolation with the distribution over the words that occur |
| KneserNeyModel.KneserNeyNormalises | jaspervc/mitlm-0.4.1/src/KneserNeySmoothing.cpp:196-220 | after every history of every order the recursive backoff probabilities of the vocabulary are not negative and add up to one |
| KneserNeySmoothing.AddDiscounts | jaspervc/mitlm-0.4.1/src/KneserNeySmoothing.cpp:206-208 | the discounts kept in the probability buffer are added to the requested histories, the others stay |
| KneserNeySmoothing.EstimateLevel | jaspervc/mitlm-0.4.1/src/KneserNeySmoothing.cpp:196-220 | in place, with one buffer for discounts and probabilities: all probabilities and backoff weights of one order |
| KneserNeySmoothing.EstimateMasked | jaspervc/mitlm-0.4.1/src/KneserNeySmoothing.cpp:222-265 | whatever the other entries of the shared buffer hold, the requested ones come out as in the full estimate |
| MaskedEstimation.UpdateMask | jaspervc/mitlm-0.4.1/src/KneserNeySmoothing.cpp:110-134 | the least request of the lower order that covers what the requested probabilities need |
| MaskedEstimation.GetMask | jaspervc/mitlm-0.4.1/src/NgramLM.cpp:335-348 | closing the request from the highest order down gives the least closed request that contains it |
| MaskedEstimation.ClosedShrinks | jaspervc/mitlm-0.4.1/src/KneserNeySmoothing.cpp:118-128 | requesting less needs less |
| MaskedEstimation.DiscountsFor | jaspervc/mitlm-0.4.1/src/KneserNeySmoothing.cpp:142-170 | parameters are refused exactly when a tuned discount is out of its range or a feature parameter is above 100; else the discounts and weights of one order |
| MaskedEstimation.ComputeWeights | jaspervc/mitlm-0.4.1/src/KneserNeySmoothing.cpp:187-194 | the exponential of the weighed features of every n-gram, zero parameters skipped |
| MaskedEstimation.WeightsAre | jaspervc/mitlm-0.4.1/src/KneserNeySmoothing.cpp:187-194 | without features all weights are one, else the exponential of the product of features and parameters |
| MaskedEstimation.EstimateAll | jaspervc/mitlm-0.4.1/src/NgramLM.cpp:350-360 | all orders in ascending order; it stops at the first refused order, the orders before are the estimates and those from there on are untouched |
| MaskedEstimation.EstimateAllMasked | jaspervc/mitlm-0.4.1/src/NgramLM.cpp:350-360 | the masked estimate ends as the full one does and agrees with it on every requested probability and backoff weight of the orders done |
| LanguageModel.DoneIsEstimated | jaspervc/mitlm-0.4.1/src/NgramLM.cpp:350-360 | what a finished estimate leaves satisfies the recursive description of the estimates |
| LanguageModel.EstimateNormalises | jaspervc/mitlm-0.4.1/src/NgramLM.cpp:281-360 | a finished estimate normalises after every history of every order |
| LanguageModel.InitializeAll | jaspervc/mitlm-0.4.1/src/NgramLM.cpp:282-288 | effective counts and discount factors of every order |
| LanguageModel.NgramLM.constructor | jaspervc/mitlm-0.4.1/src/NgramLM.cpp:281-313 | initialises every order and the order-0 probability |
| LanguageModel.NgramLM.Estimate | jaspervc/mitlm-0.4.1/src/NgramLM.cpp:350-360 | the object's tables become the full estimates, up to the first refused order |
| LanguageModel.NgramLM.Mask | jaspervc/mitlm-0.4.1/src/NgramLM.cpp:335-348 | the least closed request |
| LanguageModel.NgramLM.EstimateMasked | jaspervc/mitlm-0.4.1/src/NgramLM.cpp:350-360 | whatever the tables held, the requested entries become those of any full estimate |
| Interpolation.BowNormalises | jaspervc/mitlm-0.4.1/src/InterpolatedNgramLM.cpp:315-326 | when the lower distribution adds up to one, a backoff weight makes the history add up to one if and only if it is the estimated one; where that is undefined, if and only if the seen words already have all of the probability |
| Interpolation.MixUnigrams | jaspervc/mitlm-0.4.1/src/InterpolatedNgramLM.cpp:264-293 | the weights of the empty history do not depend on the word |
| Interpolation.UnigramsNormalise | jaspervc/mitlm-0.4.1/src/InterpolatedNgramLM.cpp:245-304 | interpolated unigrams of normalised components add up to one |
| InterpolatedNgramLM.InterpolationNormalises | jaspervc/mitlm-0.4.1/src/InterpolatedNgramLM.cpp:245-329 | the interpolated probabilities after a history add up to one whenever no order along its suffixes has its lower distribution used up by seen words |
| InterpolatedNgramLM.GetMask | jaspervc/mitlm-0.4.1/src/InterpolatedNgramLM.cpp:162-200 | the least closed request for the given backoff weights that contains the given probabilities; the weight masks cover what it needs and add nothing else to what the fresh vectors held |
| InterpolatedNgramLM.InterProbsAgree | jaspervc/mitlm-0.4.1/src/InterpolatedNgramLM.cpp:331-393 | a requested probability depends only on requested entries of the components |
| InterpolatedNgramLM.BowsAgree | jaspervc/mitlm-0.4.1/src/InterpolatedNgramLM.cpp:394-424 | a requested backoff weight depends only on requested probabilities |
| InterpolatedNgramLM.Weigh | jaspervc/mitlm-0.4.1/src/InterpolatedNgramLM.cpp:357-377 | log-linear weights of one component for the requested histories, and the running totals |
| Interpolation.WeightIs | jaspervc/mitlm-0.4.1/src/InterpolatedNgramLM.cpp:268-286 | a weight is the exponential of the bias, which the first component does not have, and the product of features and parameters |
| InterpolatedNgramLM.InterpolateProbs | jaspervc/mitlm-0.4.1/src/InterpolatedNgramLM.cpp:339-391 | the requested probabilities of one order |
| InterpolatedNgramLM.BalanceBows | jaspervc/mitlm-0.4.1/src/InterpolatedNgramLM.cpp:394-424 | the requested backoff weights of one order; the others keep their old values |
| InterpolatedNgramLM.Estimate | jaspervc/mitlm-0.4.1/src/InterpolatedNgramLM.cpp:239-240 | the full estimate: every probability is the normalised mixture, every backoff weight balances |
| InterpolatedNgramLM.EstimateMasked | jaspervc/mitlm-0.4.1/src/InterpolatedNgramLM.cpp:235-237 | the masked estimate agrees with any full one on every requested entry, from components that agree on the closed request |
| KneserNeyInterpolation.EstimateLMMasked | jaspervc/mitlm-0.4.1/src/InterpolatedNgramLM.cpp:202-230 | a component masked with the request and estimated on it agrees with its full estimate on the request, also when its parameters are refused |
| KneserNeyInterpolation.EstimateMixture | jaspervc/mitlm-0.4.1/src/InterpolatedNgramLM.cpp:211-243 | all components estimated, whatever they answer, and interpolated |
| KneserNeyInterpolation.EstimateMixtureMasked | jaspervc/mitlm-0.4.1/src/InterpolatedNgramLM.cpp:162-243 | closing the request, masking and estimating every component on it, and interpolating gives the full result on every requested entry |
| KneserNeyInterpolation.SmoothedUnigrams | jaspervc/mitlm-0.4.1/src/KneserNeySmoothing.cpp:196-220 | the unigrams of a finished Kneser-Ney estimate add up to one |
| KneserNeyInterpolation.MixtureNormalises | jaspervc/mitlm-0.4.1/src/InterpolatedNgramLM.cpp:245-329 | interpolated Kneser-Ney models add up to one after every history along whose suffixes no lower order is used up by seen words |
| Probing.NextPowerOf2 | jaspervc/mitlm-0.4.1/src/util/BitOps.h:95-97 | the smallest power of two larger than its argument |
| Probing.NextSlot | jaspervc/mitlm-0.4.1/src/NgramVector.cpp:87-90 | adding 1, 2, 3, ... modulo the table size visits the triangular probe positions |
| Probing.SlotsDistinct | jaspervc/mitlm-0.4.1/src/NgramVector.cpp:85-91 | on a power-of-two table the first p probes visit p different slots |
| Probing.EverySlotReached | jaspervc/mitlm-0.4.1/src/NgramVector.cpp:85-91 | every slot is reached within the first p probes |
| HashIndex.ProbeStops | jaspervc/mitlm-0.4.1/src/NgramVector.cpp:212-221 | a table with more slots than keys has an empty slot, and every probe sequence meets one |
| HashIndex.StopDecides | jaspervc/mitlm-0.4.1/src/NgramVector.cpp:83-92 | where probing stops decides membership |
| HashIndex.FindSlot | jaspervc/mitlm-0.4.1/src/NgramVector.cpp:212-221 | the loop ends at the slot of the key or at the first empty one |
| HashIndex.InsertKeeps | jaspervc/mitlm-0.4.1/src/NgramVector.cpp:108-111 | storing a new key in the slot found keeps every key findable |
| HashIndex.Reindex | jaspervc/mitlm-0.4.1/src/NgramVector.cpp:223-236 | rebuilding puts every key on its probe chain in a table of the given size |
| StaleIndex.AnswerRight | jaspervc/mitlm-0.4.1/src/NgramVector.cpp:83-92 | over a valid index a lookup answers rightly |
| StaleIndex.UnmovedFound | jaspervc/mitlm-0.4.1/src/NgramVector.cpp:83-92 | over an index built for old names a lookup still finds every key that keeps its number |
| StaleIndex.MovedLost | jaspervc/mitlm-0.4.1/src/NgramVector.cpp:83-92 | every key that does not is lost under some hash function and table |
| StaleIndex.IndexOutlives | jaspervc/mitlm-0.4.1/src/NgramVector.cpp:150-162 | an index outlives the renaming of its keys, for every hash function and table, if and only if the renaming changes nothing |
| HashIndex.RenumberKeeps | jaspervc/mitlm-0.4.1/src/Vocab.cpp:158-159 | rewriting the stored numbers in place along the map keeps every probe chain, so the rebuilt index is not needed |
| NgramVector.NgramVector.constructor | jaspervc/mitlm-0.4.1/src/NgramVector.cpp:62-65 | an empty vector with a valid table |
| NgramVector.NgramVector.Find | jaspervc/mitlm-0.4.1/src/NgramVector.cpp:83-92 | the index of a stored n-gram; Invalid exactly when it is not stored |
| NgramVector.NgramVector.Add | jaspervc/mitlm-0.4.1/src/NgramVector.cpp:116-134 | appends the n-gram exactly when it is new; indices of stored n-grams never change |
| NgramVector.NgramVector.Reserve | jaspervc/mitlm-0.4.1/src/NgramVector.cpp:136-144 | changes the capacity and keeps the contents |
| NgramVector.NgramVector.Rename | jaspervc/mitlm-0.4.1/src/NgramVector.cpp:150-154 | every word and history renamed in place |
| NgramVector.SortedGrams | jaspervc/mitlm-0.4.1/src/NgramVector.cpp:157-173 | arranging by a sorted permutation gives the same n-grams in ascending order, and the inverse map leads every n-gram to its place |
| NgramVector.NgramVector.Sort | jaspervc/mitlm-0.4.1/src/NgramVector.cpp:146-186 | every n-gram ends up, renamed, at its mapped index; the index is rebuilt when the sort takes place and left as it is otherwise; the result is in order exactly when the sort took place or there is one n-gram |
| NgramVector.AscendingMeans | jaspervc/mitlm-0.4.1/src/NgramVector.cpp:146-186 | in order means histories first, words under the same history second |
| NgramVector.SortKeepsIndex | jaspervc/mitlm-0.4.1/src/NgramVector.cpp:146-186 | a sort keeps the index right, for every hash function and table, if and only if some renamed n-gram is followed by a larger one or the renaming changes nothing |
| NgramVector.RenamingLosesGrams | jaspervc/mitlm-0.4.1/src/NgramVector.cpp:150-162 | with keys (1, 2), (2, 0) and the words 1 and 2 trading places nothing steps up, and a lookup of the stored (1, 0) can answer Invalid |
| Vocab.Vocab.constructor | jaspervc/mitlm-0.4.1/src/Vocab.cpp:61-66 | the sentence marker is word 0 |
| Vocab.Vocab.Find | jaspervc/mitlm-0.4.1/src/Vocab.cpp:82-97 | the index of a stored word, that of the unknown word otherwise |
| Vocab.Vocab.Add | jaspervc/mitlm-0.4.1/src/Vocab.cpp:99-118 | adds a new word to an open vocabulary; a fixed one answers with the unknown word |
| Vocab.Vocab.Reserve | jaspervc/mitlm-0.4.1/src/Vocab.cpp:120-127 | changes the capacity and keeps every word findable |
| Vocab.Vocab.Sort | jaspervc/mitlm-0.4.1/src/Vocab.cpp:129-162 | the words behind the fixed ones are sorted, the map is a permutation that leads every word to its place, and the table remapped in place still finds every word |
| Vocab.StrLessMeans | jaspervc/mitlm-0.4.1/src/Vocab.cpp:129-137 | words are compared at their first difference |
| NgramTrie.SpellsOnce | jaspervc/mitlm-0.4.1/src/NgramModel.cpp:682-689 | two n-grams of an order with the same words are the same n-gram |
| NgramTrie.AddedTrie | jaspervc/mitlm-0.4.1/src/NgramModel.cpp:129 | adding an n-gram under a history keeps the trie and what every n-gram spells |
| CorpusCounts.SuffixCount | jaspervc/mitlm-0.4.1/src/NgramModel.cpp:121-140 | an n-gram occurs at most as often as its suffix |
| CorpusScan.CountStep | jaspervc/mitlm-0.4.1/src/NgramModel.cpp:127-134 | the counting step keeps the invariant of the innermost loop |
| CorpusScan.SkipStep | jaspervc/mitlm-0.4.1/src/NgramModel.cpp:135-138 | the skipping step, for windows with an invalid word, keeps it too |
| CorpusScan.NextPosition | jaspervc/mitlm-0.4.1/src/NgramModel.cpp:123-125 | the remembered indices serve the next position |
| CorpusScan.CountLine | jaspervc/mitlm-0.4.1/src/NgramModel.cpp:121-140 | one line is counted exactly; what the remembered indices hold from earlier lines is never used |
| CorpusScan.CountLines | jaspervc/mitlm-0.4.1/src/NgramModel.cpp:99-141 | every count is the number of windows that end behind the start marker and hold no invalid word; the trie is suffix-closed |
| CorpusModel.AddVocabulary | jaspervc/mitlm-0.4.1/src/NgramModel.cpp:143-148 | the words the corpus does not have are added with count zero |
| CorpusModel.ApplySort | jaspervc/mitlm-0.4.1/src/NgramModel.h:99-108 | data scattered along the map; entries the map does not reach hold the default |
| CorpusModel.LoadCorpus | jaspervc/mitlm-0.4.1/src/NgramModel.cpp:83-162 | a corpus loaded into a new model: exact counts moved along bijective maps, the sorted suffix-closed trie, and the links the indices answer; these are right when no suffix is stranded, and always up to order two |
| SortedLinks.UnstrandedFound | jaspervc/mitlm-0.4.1/src/NgramModel.cpp:150-161 | an n-gram of a sorted order, or one that kept its name, is found |
| SortedLinks.HarmlessLinks | jaspervc/mitlm-0.4.1/src/NgramModel.cpp:150-161 | if every n-gram that a longer one ends in is such, all links are right |
| SortedLinks.StrandedLost | jaspervc/mitlm-0.4.1/src/NgramModel.cpp:803-812 | if one is not, some link is wrong under some hash function and tables |
| SortedLinks.LinksRightExactly | jaspervc/mitlm-0.4.1/src/NgramModel.cpp:734-813 | the links of a sorted model are right for every hash function and all tables if and only if every n-gram that a longer one ends in belongs to a sorted order or kept its name |
| SortedLinks.UnigramsNotStranded | jaspervc/mitlm-0.4.1/src/NgramModel.cpp:152-159 | unigrams are never stranded, because the sentence marker comes first and keeps its number |
| StrandedCorpus.LineIsCounted | jaspervc/mitlm-0.4.1/src/NgramModel.cpp:121-148 | the n-grams and counts of the line "UNK b a" with the vocabulary b, a, c at order three |
| StrandedCorpus.LinksCanFail | jaspervc/mitlm-0.4.1/src/NgramModel.cpp:150-161 | loading that line strands the bigram "a </s>", and under some hash function the trigram that ends in it gets a wrong link |
| BackoffLinks.ComputeBackoffs | jaspervc/mitlm-0.4.1/src/NgramModel.cpp:787-813 | the links are what the lookups in the indices answer, order by order |
| BackoffLinks.LinkFound | jaspervc/mitlm-0.4.1/src/NgramModel.cpp:803-812 | the suffix of an n-gram sits under the link of its history and its last word |
| BackoffLinks.AnsweredLinks | jaspervc/mitlm-0.4.1/src/NgramModel.cpp:787-813 | when every suffix is answered for, every link spells its n-gram without the first word |
| NgramModel.SortLevel | jaspervc/mitlm-0.4.1/src/NgramModel.cpp:741-742 | one order renamed and sorted |
| NgramModel.SortModel | jaspervc/mitlm-0.4.1/src/NgramModel.cpp:734-744 | every n-gram keeps its word string under bijective maps, one for each order; the indices are rebuilt or left as the sort of each order does; the links are what they answer |
| NgramModel.SortedSuffixes | jaspervc/mitlm-0.4.1/src/NgramModel.cpp:734-744 | the sorted trie still has all suffixes |
| LoadedModel.LoadedIsWellFormed | jaspervc/mitlm-0.4.1/src/NgramModel.cpp:83-162 | a loaded corpus is a model the smoothing can work on |
| LoadedModel.LoadedIsSuffixClosed | jaspervc/mitlm-0.4.1/src/NgramModel.cpp:83-162 | an n-gram that occurs links to one that occurs |
| LoadedModel.LoadModel | jaspervc/mitlm-0.4.1/src/NgramModel.cpp:83-162 | when no suffix is stranded, so always up to order two, loading yields exactly what normalisation of the Kneser-Ney estimates asks for |
| ModelMerging.GetNgramWords | jaspervc/mitlm-0.4.1/src/NgramModel.cpp:673-695 | the word strings of an n-gram, with a leading sentence marker shown as the start of a sentence |
| ModelMerging.MergeOne | jaspervc/mitlm-0.4.1/src/NgramModel.cpp:726-728 | adding a renamed n-gram under its renamed history keeps the merge invariant |
| ModelMerging.ExtendModel | jaspervc/mitlm-0.4.1/src/NgramModel.cpp:697-732 | the result holds exactly the union of both sets of n-grams, and the maps keep every word string |
| Perplexity.FindNgram | jaspervc/mitlm-0.4.1/src/NgramModel.cpp:779-785 | the index of an n-gram, Invalid when any prefix is missing |
| Perplexity.CountToken | jaspervc/mitlm-0.4.1/src/NgramModel.cpp:490-500 | backing off until the n-gram is found counts exactly the terms of the recursive backoff score |
| Perplexity.CountLine | jaspervc/mitlm-0.4.1/src/NgramModel.cpp:482-502 | all tokens of a line, each in the context back to the last unknown word |
| Perplexity.LoadEvalCorpus | jaspervc/mitlm-0.4.1/src/NgramModel.cpp:442-506 | whatever probabilities and weights are used, the counts weigh out to the sum over all known tokens of their recursive backoff score |
| Perplexity.AllTokensKnown | jaspervc/mitlm-0.4.1/src/NgramModel.cpp:484-501 | when every word has an index the mask admits, every token is known |
| Perplexity.MaskedOut | jaspervc/mitlm-0.4.1/src/NgramModel.cpp:485-488 | taking a word out of the mask turns exactly its occurrences into unknown tokens |
| Perplexity.WindowOfToken | jaspervc/mitlm-0.4.1/src/NgramModel.cpp:483-500 | the window a token is scored in holds admitted words only behind the start marker, and could be longer only beyond the order, beyond the line or by a word that is not admitted |
| Perplexity.TotalLogProb | jaspervc/mitlm-0.4.1/src/PerplexityOptimizer.cpp:66-99 | the aggregated total is the token-wise total |
| Perplexity.EveryTokenCountsOnce | jaspervc/mitlm-0.4.1/src/NgramModel.cpp:490-500 | the n-gram counts of a text add up to the number of its known tokens |
| Perplexity.CountZeros | jaspervc/mitlm-0.4.1/src/PerplexityOptimizer.cpp:73-83 | the counter of one order |
| Perplexity.ZerosCountedOnce | jaspervc/mitlm-0.4.1/src/PerplexityOptimizer.cpp:67-84 | the counter of zero probabilities counts n-grams of all orders: it equals the number of such tokens exactly when none of them is used twice |
| Perplexity.ZeroTokensOfText | jaspervc/mitlm-0.4.1/src/PerplexityOptimizer.cpp:67-101 | those tokens are the known tokens that back off to an n-gram of zero probability, and the divisor never falls below zero |
| Perplexity.ComputeEntropy | jaspervc/mitlm-0.4.1/src/PerplexityOptimizer.cpp:60-107 | the entropy is the recursive backoff score of the known tokens over their number less the number of n-grams of zero probability, with both kinds of division by zero |
| MersenneTwister.SequenceIsWords | jaspervc/cmuclmtk/src/liblmest/genrand.c:137-176 | the whole infinite sequence stays within 32 bits |
| MersenneTwister.Recurrence | jaspervc/cmuclmtk/src/liblmest/genrand.c:166-175 | x[k + 624] is the twist of x[k], x[k + 1] and x[k + 397] |
| MersenneTwister.TwistInvertible | jaspervc/cmuclmtk/src/liblmest/genrand.c:166-175 | a twist adds an invertible function of the upper bit of one word and the lower bits of the next |
| MersenneTwister.TwistSamples | jaspervc/cmuclmtk/src/liblmest/genrand.c:157-175 | the twist of single bits |
| MersenneTwister.DefaultState | jaspervc/cmuclmtk/src/liblmest/genrand.c:138-164 | the first words of the state of the default seed |
| MersenneTwister.WindowStep | jaspervc/cmuclmtk/src/liblmest/genrand.c:166-175 | what the in-place step reads is what the recurrence needs, although half of the array is already new |
| MersenneTwister.TemperBijective | jaspervc/cmuclmtk/src/liblmest/genrand.c:182-186 | tempering is a bijection on 32-bit words, with its inverse given |
| MersenneTwister.TemperSamples | jaspervc/cmuclmtk/src/liblmest/genrand.c:182-186 | the tempering of single bits and of all |
| MersenneTwister.Generator.constructor | jaspervc/cmuclmtk/src/liblmest/genrand.c:134-135 | an unseeded generator stands for the default seed |
| MersenneTwister.Generator.Seed | jaspervc/cmuclmtk/src/liblmest/genrand.c:137-151 | starts the sequence of a seed |
| MersenneTwister.Generator.Refill | jaspervc/cmuclmtk/src/liblmest/genrand.c:160-178 | replaces all 624 words by the next 624 of the sequence |
| MersenneTwister.Generator.Next | jaspervc/cmuclmtk/src/liblmest/genrand.c:153-189 | the n-th output is the tempering of x[n + 624] |
| MersenneTwister.Generator.Outputs | jaspervc/cmuclmtk/src/liblmest/genrand.c:153-189 | the same for any number of calls |
| GoodTuring.AcceptedPositive | jaspervc/cmuclmtk/src/liblmest/compute_discount.c:103-127 | an accepted range has no empty frequency class, so no quotient divides by zero |
| GoodTuring.AcceptedInRange | jaspervc/cmuclmtk/src/liblmest/compute_discount.c:103-127 | accepted discounts are numbers between 0 and 1 |
| GoodTuring.AcceptsExactly | jaspervc/cmuclmtk/src/liblmest/compute_discount.c:103-127 | a range is accepted exactly when, in whole numbers, its common term is a proper fraction and every class in it occurs with a discount between 0 and 1 |
| GoodTuring.RemovedSum | jaspervc/cmuclmtk/src/liblmest/compute_discount.c:109-113 | the removed mass telescopes |
| GoodTuring.RemovesSingletons | jaspervc/cmuclmtk/src/liblmest/compute_discount.c:83-129 | the discounts of an accepted range take away exactly f_1 |
| GoodTuring.DiscountedMass | jaspervc/cmuclmtk/src/liblmest/disc_meth_good_turing.c:82-95 | discounted counts total the original total minus f_1 |
| GoodTuring.ComputeGtDiscount | jaspervc/cmuclmtk/src/liblmest/compute_discount.c:45-133 | the loop ends at the largest range from which the search does not go on, with its discounts, the disabled cases and the cutoff |

## Left out

Numbers and libraries

- Floating point: rounding, infinities, NaN and the `logAdd` cutoff; arithmetic is exact over `real`, lattice scores use the positive arc probability in place of its logarithm, and `log` and `exp` are arbitrary functions with the signs the proofs need.
- Machine widths of counts, indices, weights and capacities; kept are the 32-bit words of the generator, the limit of 65535 reference words and the 64-bit wrap-around of the n-best counter.
- The library sort and the priority queues: `Sorting` and the pop methods state their contracts, with ties left open. The sort of `DenseVector`, which does nothing unless some entry is followed by a larger one, is kept.
- Hash functions: any function from keys to numbers.
- Files, parsing, tokenising, printing, binary serialisation and the copy constructor and `Deserialize` of the n-gram vector; inputs are token lines and entry lists.

Lattice

- `_oraclePath`, `ComputeMargin` and `_IsOracleBestPath`: the deletion push reuses the arc of its predecessor, so the recorded parents need not realise the rate; that the backtrace ends is proved, not which path it reads.
- Lattices with a node that has no outgoing arc, and the empty lattice, which the code reads past; `LoadLattice` states what it builds for all others.
- The parallel arc arrays are one sequence of arcs.
- `BuildConfusionNetwork`, `EstimateArcPosition`, forward and backward steps, `UpdateWeights` and the mapping of arcs to n-grams.

Aligner

- `limitPair` and initial probability files; negative `nBest`, `maxX` and `maxY`.
- Entries of value 0 that reading `probs[..][..]` creates, the value `totalChange` that `maximization` returns, and an unknown `maxFn` string.
- The dynamic-programming tables are maps from cells to values, and the nested loops over moves are written once for all five sweeps.

Smoothing and interpolation

- The unweighted estimators are the weighted ones with every weight one.
- The infinite order-0 probability of an open vocabulary in which no word occurs; `NgramLM` does not say what its entry holds then.
- MaskedEstimation.EstimateAll: with discount factors that are not numbers the code goes on; the outcome `NotNumbers` says so, and the tables from that order on are not described.
- The cutting of the flat parameter vector into orders and components; parameters come per order.
- The full interpolation loops are the masked ones with everything requested.
- InterpolatedNgramLM.InterpolationNormalises: says nothing about histories whose suffixes include one with an undefined weight.
- `MaxLikelihoodSmoothing`, the numerical optimisers, `WordErrorRateOptimizer`.

N-gram storage

- Lookups and additions on a model that a sort has already left stale: `ExtendModel` and `LoadEvalCorpus` are modelled on n-gram sequences with lookups that answer rightly, as `NgramVector` does whenever its index is valid. The lookups that compute the suffix links are modelled on the indices as the sort leaves them.
- The assertions that stop a debug build at a link that is not found.
- Sorting an order with no n-grams, where the code reads past the array; it leaves the order unchanged here.
- The doubling of count vectors, loading a corpus into a model that already holds n-grams, `ExtendModel` into a model of size 0, and the empty token after trailing space.
- Counts files, language-model files, computed features.

Compact cores

- The rounding of the special case for one discounted class with unseen words, messages, and the in-place update of frequency-of-frequency tables.
- `genrand_int31` and the other output ranges; tree lookup, back-off weights and unigram code of cmuclmtk.

Jasper's Python client, the file-system daemons and the build scripts.
