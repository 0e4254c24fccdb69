# Verified models of the gear optimizer

The gear optimizer finds, for a rhythm-game song, the loadout (six gears, three minis, 90 gems) and the play (which
notes are hit Great on purpose) with the highest score. Its promise is exactness: every fast kernel either equals a
simple definition or drops only what no optimum needs. This project models those kernels in Dafny and proves what
they promise over every input; where the code falls short of it, an input and the exact condition are given.
What is assumed or not modelled is listed under Left out.

| module | component |
|---|---|
| `Scoring` | the per-note integer scoring every prune rests on |
| `GemProblem`, `GemBounds`, `GemTables`, `GemAdmissible`, `GemSearch`, `GemWinner`, `GemLoadouts` | the five-level branch and bound over gem allocations |
| `SplitOrder`, `SplitCaps`, `KeptSplits`, `SplitScores` | which FT/FF gem splits the gem search is given |
| `Shortlist`, `ShortlistSweep`, `ShortlistScores`, `ShortlistTies`, `ReachableKeys` | the FT/FF shortlist by bit columns, what it never misses, which tied winners it keeps, and its keys |
| `Float64`, `NoteScores`, `SurfaceSearch`, `ReferenceBound`, `ReferenceSearch`, `GenomeSearch` | the GPU's software binary64 and its shortcut, its pair search, its reference bound and the search that gives it, a genome's search over its combos |
| `Successors`, `Reachability`, `ReachableEnds`, `FillRuns` | the reachability prepass over a stamped disjoint-set structure, and all that it owes |
| `Fenwick`, `BodyHull`, `BodyReduce`, `SkylineQueue`, `FamilyQueues` | body frontiers: skyline, hull, packet queues |
| `LaneTable`, `LanePrefixes`, `LaneSums`, `ActivationTest` | the packed subset-sum test over lanes and the certificate that spares it |
| `ConeBox`, `BodyCone`, `BodyTails`, `StructuralPrune`, `SurfaceRows` | the cone filter, the tails of a whole chart through hull and filter, the structural Pareto pass |
| `FillCrossing`, `ActionTables`, `RegionCores`, `RegionTable`, `TableScheduler` | fever-bar closed forms, action tables, region cores and their table, the byte-budget schedule |
| `Pools`, `WorkerPool`, `WorkerReports`, `Boards`, `BundleCodec`, `HeadCoeffs`, `BeamSearch`, `FeverTimeline` | pool pruning, the worker protocol and what it reports, leaderboards, the frontier codec, the beam search, fixed timelines |
| `Words`, `Arithmetic`, `Wrappers` | 64-bit words as naturals with their bit operations, order lemmas, optional values |

Scores, stat curves and fill denominators are exact reals, hit times integers or reals, machine words naturals with
their wrap-around written out; only the binary64 product is modelled at the level of bits. Kernels that write arrays are
methods on arrays proved against sequences, sets or maps; the protocols are a state with a step relation and the
theorems are about every run. What a sort leaves open (the order of ties) is a parameter, so a theorem holds for every
order the sort may return.

Check the whole project with `dafny verify dfyconfig.toml`.

## Model

| member | source | states |
|---|---|---|
| `GemLoadouts.ScoreLoadouts` | gear_optimizer/solver/gem_search.py:573-768 | For a batch of loadouts: each loadout's row is its exhaustive winner (first group of highest score, its first surface reaching it, lexicographically smallest (CM, FM, PP)) when that reaches the loadout's floor, and otherwise no option of any of its groups reaches the floor, whatever group, column, block, surface, row and pair pruning skipped |
| `GemWinner.ScoreLoadout` | gear_optimizer/solver/gem_search.py:643-767 | One loadout: the pruned search over its groups returns the exhaustive winner, ties included, or proves every option below the floor |
| `GemWinner.WinnerIsUnique` | gear_optimizer/solver/gem_search.py:575-580 | There is one exhaustive winner: two rows that satisfy the definition are equal |
| `GemWinner.ScoreGroup` | gear_optimizer/solver/gem_search.py:657-767 | A group: best surface and allocation of its frontier; every other option is under the floor, lower, or tied and after it |
| `GemWinner.LiveColumn` | gear_optimizer/solver/gem_search.py:661-673 | Every allocation of a CM column lies in a block kept live, or no surface lets it reach the floor |
| `GemSearch.ScoreSurface` | gear_optimizer/solver/gem_search.py:678-759 | A surface: skipped under its ceiling or searched block by block, every allocation of a live block is settled |
| `GemSearch.ScoreBlock` | gear_optimizer/solver/gem_search.py:704-756 | The rows of a block settle every allocation inside it |
| `GemSearch.ScorePair` | gear_optimizer/solver/gem_search.py:723-756 | The PP/element splits of a (CM, FM) pair settle every allocation of the pair |
| `GemLoadouts.FrontierShapes` | gear_optimizer/solver/gem_search.py:553-570 | The shapes cached per frontier bound every surface of their frontier |
| `GemLoadouts.StatLineDeltas` | gear_optimizer/solver/gem_search.py:519-535 | The delta range covers every loadout of the run of equal stat lines, and nothing of another stat line |
| `GemTables.BoundTables.FillBlockBounds` | gear_optimizer/solver/gem_search.py:467-516 | Every block, column and budget table entry is the bound it stands for, between the two deltas |
| `GemBounds.ScoreUpper` | gear_optimizer/solver/gem_search.py:386-398 | A surface's floored note-by-note score is at most base value x shape value less what its Greats lose |
| `GemBounds.FrontierShapeBounds` | gear_optimizer/solver/gem_search.py:553-570 | The most A and the most F of a frontier bound each of its surfaces at every combo and fever of at least 1 |
| `GemProblem.GemCountIsLeast` | gear_optimizer/solver/gem_search.py:439-446 | A gem curve ends at the fewest gems that take the stat to its cap, or at the budget: every gem before raises it below the cap, every one after leaves the curve's value |
| `GemAdmissible.BlockBoundCovers` | gear_optimizer/solver/gem_search.py:401-418 | A block bound is at least the score of every allocation in the block, less its Greats' least loss |
| `GemAdmissible.ColumnCovers` | gear_optimizer/solver/gem_search.py:431-436 | A column's chord bound covers every block, surface and allocation of the column at every delta of the range |
| `GemAdmissible.BudgetCoversColumn` | gear_optimizer/solver/gem_search.py:421-428 | A budget's bound is at least that of each of its columns |
| `Scoring.FgSurfaceScore` | gear_optimizer/score.py:121-156 | The scorer's loop refuses exactly the counts that do not fit the song and otherwise returns the note-by-note score |
| `Scoring.BodyScoreIsNoteByNote` | gear_optimizer/score.py:134-140 | The body scored by counts is its notes scored one by one, a Great at the lower of its two values |
| `KeptSplits.KeptSplits` | gear_optimizer/solver/gem_search.py:108-212 | Over linked lists in stamped arrays: refuses exactly when some split looked at reaches no frontier, else the rows of every key are, per frontier in first-reached order, the splits no other split looked at there beats |
| `KeptSplits.Lists.Collect` | gear_optimizer/solver/gem_search.py:149-181 | After the two capped loops every frontier's cells hold the list of the splits looked at that reach it, its best split, and the frontiers in first-reached order |
| `KeptSplits.Lists.Visit` | gear_optimizer/solver/gem_search.py:163-175 | Adding one split keeps every frontier's list, whether the frontier is new to this key or not |
| `KeptSplits.Lists.Dominated` | gear_optimizer/solver/gem_search.py:187-204 | The walk (best split first, then the list) answers exactly whether another split of the frontier beats the row |
| `KeptSplits.ConstantBest` | gear_optimizer/solver/gem_search.py:132 | Without color gains the split of most residual gems beats every other of its frontier |
| `SplitOrder.BeatsTransitive` | gear_optimizer/solver/gem_search.py:191-203 | Beating is transitive across its two clauses (more value; matched gains) |
| `SplitOrder.KeptBeater` | gear_optimizer/solver/gem_search.py:121-128 | Every split is kept or beaten by a kept split of its frontier |
| `SplitOrder.KeptOfFew` | gear_optimizer/solver/gem_search.py:125-128 | Leaving out only splits that an earlier one on their frontier beats leaves the kept splits and their order unchanged |
| `SplitCaps.FewerBeats` | gear_optimizer/solver/gem_search.py:133-135 | On capped axes a split with fewer gems beats one with more |
| `SplitCaps.CutIsExact` | gear_optimizer/solver/gem_search.py:149-181 | Stopping at the stat caps keeps exactly the splits of the whole table, for every frontier table, if and only if every axis that may be cut short has a key above -3 (or one that never leaves the floor) |
| `SplitCaps.LowKeyLoses` | gear_optimizer/solver/gem_search.py:177-181 | Where that fails, a concrete frontier table shows a kept split that is never looked at |
| `SplitScores.MoreValueScoresMore` | gear_optimizer/solver/gem_search.py:122-127 | With as many residual gems and at least the value every option scores at least as much; with more value, a point more on every note |
| `SplitScores.ValueBeatenNeverWins` | gear_optimizer/solver/gem_search.py:122-127 | A split beaten on value is beaten on every surface and allocation by at least one point per note of the song |
| `SplitScores.KeptMatches` | gear_optimizer/solver/gem_search.py:108-128 | Every option of every split of the budget is matched by a kept split of its frontier with the same gems |
| `SplitScores.WinnerOfKeptIsBest` | gear_optimizer/solver/gem_search.py:108-128 | The exhaustive winner among the kept groups scores at least as much as every option of every split of the budget |
| `SplitScores.WinnerIsKept` | gear_optimizer/solver/gem_search.py:108-128 | Where an element gem raises a color: a split whose option no split of its frontier passes is kept, or has the gains and residual gems of a kept one earlier in the table |
| `SplitScores.BeatenNeverTies` | gear_optimizer/solver/gem_search.py:191-203 | Where an element gem raises a color, a split beaten by one of other gains or residual gems scores less with every gems on every surface |
| `SplitScores.ElementlessTies` | gear_optimizer/solver/gem_search.py:191-203 | Where it raises none, a split beaten by one of equal gains ties with it, whatever gems both have left |
| `ShortlistSweep.FtffShortlist` | gear_optimizer/solver/ftff_combos.py:61-98 | The lists returned hold, per reachable key and ascending, exactly the combos of the pairwise definition, and no index but a combo's |
| `ShortlistSweep.SweepIsPairwise` | gear_optimizer/solver/ftff_combos.py:117-207 | The bit-column sweep sets a combo's bit for a key exactly when the key is reachable and some option of the combo there is beaten by no option of the key |
| `ShortlistSweep.ShortlistKeep` | gear_optimizer/solver/ftff_combos.py:117-207 | The sweep over all surfaces sets exactly those bits |
| `ShortlistSweep.SweepOption` | gear_optimizer/solver/ftff_combos.py:186-207 | One option: its columns from the right, stopping once all keys are beaten, set exactly its unbeaten keys |
| `ShortlistSweep.BeatenIsBlocked` | gear_optimizer/solver/ftff_combos.py:120-134 | An option is beaten at a key exactly when a better option lies at or past the key in its wedge |
| `Shortlist.RiseLeft` | gear_optimizer/solver/ftff_combos.py:164-166 | With both weights negative the wedge rises to the left, at most one row a column |
| `ShortlistSweep.DecodeKeep` | gear_optimizer/solver/ftff_combos.py:102-113 | Decoding the words gives each key's combos ascending, every set bit once |
| `ShortlistSweep.ClearLowest` | gear_optimizer/solver/ftff_combos.py:102-113 | x & (x - 1) clears exactly the lowest set bit |
| `ShortlistScores.ShortlistHoldsBest` | gear_optimizer/solver/ftff_combos.py:61-74 | Whatever an option of a reachable key scores in Base play, a combo on the key's shortlist scores at least as much there with the same PP, CM and FM gems |
| `ShortlistScores.BeatenByKept` | gear_optimizer/solver/ftff_combos.py:65-71 | Following what beats an option ends at a kept one that contains its fever notes with as many residual gems and as much value |
| `ShortlistScores.ComboIsPos` | gear_optimizer/solver/ftff_combos.py:75-77 | A combo's index is its place in the split table both searches walk |
| `ShortlistScores.BeaterScoresMore` | gear_optimizer/solver/ftff_combos.py:65-71 | Containing the fever notes, with as many residual gems and as much value, is scoring at least as much, note by note |
| `ShortlistTies.StrictlyMore` | gear_optimizer/solver/ftff_combos.py:68-70 | When what beats an option scores strictly more with the same gems: exactly if its value is larger and the song has a note, or one of the fever notes it adds scores more in fever |
| `ShortlistTies.SameSurfaceStrict` | gear_optimizer/solver/ftff_combos.py:68-70 | On one surface it scores strictly more exactly if its value is larger and the song has a note |
| `ShortlistTies.BeaterTies` | gear_optimizer/solver/ftff_combos.py:68-71 | The comment says strictly more unless the two are identical: with gains of 6, 0 and 12 combo (0, 1), index 1, beats combo (2, 0), index 181, on the same surface and ties with it on every song, loadout and gems |
| `ShortlistTies.BeaterWins` | gear_optimizer/solver/ftff_combos.py:61-71 | What beats a Base winner of the key wins too, with the same gems and value, and no fever note it adds scores more in fever |
| `ShortlistTies.LevelOrder` | gear_optimizer/solver/ftff_combos.py:70-71 | Of two combos of equal value the one with more residual gems has the higher index if an FT gem is worth less than an FF gem, the lower if more |
| `ShortlistTies.HighestIsListed` | gear_optimizer/solver/ftff_combos.py:61-71 | With FT gems worth less than FF gems, or as much where every note scores more in fever, the Base winner of the highest combo index is on its key's shortlist |
| `ShortlistTies.LowestIsListed` | gear_optimizer/gpu/kernels.py:377-387 | With FT gems worth more than FF gems the Base winner of the lowest combo index, the one the GA takes, is on its key's shortlist |
| `ShortlistTies.HighestExact` | gear_optimizer/solver/ftff_combos.py:61-71 | For given color gains the winner of the highest index is on the shortlist for every timeline, song, loadout and key if and only if an FT gem is worth less than an FF gem; for those where every note scores more in fever, if and only if it is worth no more |
| `ShortlistTies.LowestExact` | gear_optimizer/gpu/kernels.py:377-387 | The winner of the lowest index is, for every timeline, song, loadout and key, if and only if an FT gem is worth more than an FF gem |
| `ReachableKeys.ReachableFtffKeys` | gear_optimizer/solver/ftff_combos.py:47-58 | The grid marks a key exactly when some loadout with one item per slot has those capped totals |
| `ReachableKeys.OneMoreSlot` | gear_optimizer/solver/ftff_combos.py:53-57 | Capping the sum so far loses no key: one more slot leads from keys to keys |
| `Float64.ProductIsRounded` | gear_optimizer/gpu/scoring.py:66-86 | For positive normal operands with a result in the normal range the 64-bit integer product is the exact product under roundTiesToEven (IEEE 754-2019, sections 3.4, 4.3.1 and 5.4.1), the mantissa carry into the exponent included |
| `Float64.RoundedExactlyInRange` | gear_optimizer/gpu/scoring.py:66-86 | For all positive normal operands the integer product is the rounded one, infinity included, if and only if the exact product is in the normal range, in the last quarter below it or the quarter before the last half (in units of 2^-1074), or past it up to 2^1024 (1 + 2^-53) |
| `Float64.InfinityOnly` | gear_optimizer/gpu/scoring.py:83-86 | Past the normal range the product is infinity, as roundTiesToEven has it, exactly up to 2^1024 (1 + 2^-53); beyond that a nonzero fraction or sign bit remains |
| `Float64.ZeroExponent` | gear_optimizer/gpu/scoring.py:83-86 | With a result exponent of 0 the fraction is not shifted as a subnormal's would be: exactly those two quarters round right |
| `Float64.MinusOneExponent` | gear_optimizer/gpu/scoring.py:83-86 | With a result exponent of -1 the field wraps and the product is never the rounded one |
| `Float64.RangeIsExponent` | gear_optimizer/gpu/scoring.py:83-86 | That range is exactly where the result's exponent, its carry included, fits |
| `Float64.OutsideIsNotFinite` | gear_optimizer/gpu/scoring.py:85-86 | Where the result's exponent is below -1, or above what a finite number has, its carry included, the product is no finite number |
| `Float64.RoundingIsUnique` | gear_optimizer/gpu/scoring.py:66-68 | There is at most one binary64 value, infinity included, an exact product rounds to |
| `Float64.MantissaProductIs` | gear_optimizer/gpu/scoring.py:70-76 | The two product words are the exact 106-bit product of the mantissas |
| `Float64.NearestMultiple` | gear_optimizer/gpu/scoring.py:77-84 | Rounding half to even: no multiple is nearer, and a tie goes to the even one |
| `Float64.Float64OfIsExact` | gear_optimizer/gpu/scoring.py:59-62 | A positive integer below 2^24 is represented exactly |
| `Float64.FloorIsExact` | gear_optimizer/gpu/scoring.py:90-93 | The bit-level floor is the floor of the represented value, between 1 and 2^31 |
| `Float64.NoteProductFloor` | gear_optimizer/gpu/scoring.py:178-181 | On the exact path a note's score out of fever is the floor of the rounded product of its base and combo multiplier |
| `Float64.FeverNoteProductFloor` | gear_optimizer/gpu/scoring.py:178-181 | In fever: the combo's product is rounded, then the fever's, then floored |
| `NoteScores.NoteScore` | gear_optimizer/gpu/scoring.py:168-182 | However single precision rounds within 2^-24 a step, the note's score is the floor of its binary64 product, whether the shortcut or the exact path settles it |
| `NoteScores.SettledFloor` | gear_optimizer/gpu/scoring.py:177 | Farther than 3e-7 of itself from the integers a rough value has the binary64 product's floor |
| `NoteScores.RoughIs` | gear_optimizer/gpu/scoring.py:172-174 | At most four single-precision steps stay within 2.385e-7 of the exact value |
| `NoteScores.RealProduct` | gear_optimizer/gpu/scoring.py:66-86 | A product of normal numbers in the normal range is within 2e-16 of the exact one |
| `SurfaceSearch.SurfaceSearch` | gear_optimizer/gpu/scoring.py:284-331 | The exact pair search with row, run and pair bounds returns the first (CM, FM) pair of highest score, PP gems from the prefix table, and every other pair is under the floor, lower, or tied and after it |
| `SurfaceSearch.FoundIsBest` | gear_optimizer/gpu/scoring.py:284-331 | Its score is the highest over every allocation of the surface, PP gems included, whenever one reaches the floor |
| `SurfaceSearch.PairIsBest` | gear_optimizer/gpu/scoring.py:206-224 | The prefix table's PP gems give a pair its highest score |
| `SurfaceSearch.RunCovers` | gear_optimizer/gpu/scoring.py:291-312 | A run's bound (base of its fewest FM gems, fever of its most) covers each of its pairs |
| `SurfaceSearch.ScoreOrLess` | gear_optimizer/gpu/scoring.py:186-202 | The early exit on the body and the head's sum only gives up scores below the floor; otherwise the score is exact |
| `ReferenceBound.ReferenceCovers` | gear_optimizer/gpu/scoring.py:367-377 | The reference bound is at least every pair's score on any surface of any combo of at most the reference's budget |
| `ReferenceBound.RatioAtCorners` | gear_optimizer/gpu/scoring.py:367-377 | The ratio of two shapes over a box of multipliers is at most its largest corner value |
| `ReferenceBound.ExactGemSearch` | gear_optimizer/gpu/scoring.py:381-398 | Skipping surfaces by the reference bound, the result is the first surface of highest score, or nothing reaches the floor |
| `ReferenceSearch.BoundSearch` | gear_optimizer/gpu/scoring.py:283-331 | Without exact scores: from a seed pair, rows and runs bounded first, the search returns a pair's bound that no pair of the surface passes |
| `ReferenceSearch.SearchReference` | gear_optimizer/gpu/scoring.py:335-363 | The reference built from that bound meets what the reference bound needs |
| `ReferenceSearch.SearchCombo` | gear_optimizer/gpu/kernels.py:309-316 | With a reference found this way a combo's search, at whatever floor, returns the first surface of highest score, or nothing reaches the floor |
| `GenomeSearch.SearchGenome` | gear_optimizer/gpu/kernels.py:289-387 | Over all combos of a genome, in any order and with any stale incumbent as floor: the winner has the highest score, is the lowest combo of a tie, and its row is that combo's first surface and first pair of that score |
| `GenomeSearch.PairFloorIsSure` | gear_optimizer/gpu/scoring.py:234-241 | The score the incumbent starts from is reached by some pair of the surface it is taken from |
| `GenomeSearch.PlainScoreLower` | gear_optimizer/gpu/scoring.py:234-241 | A surface's plain value less a point a note and its Greats is no more than its score |
| `Successors.Find` | gear_optimizer/frontier/producer_kernels.py:1068-1078 | Under path compression and stale stamps it returns the least live index at or after its argument and keeps the structure |
| `Successors.FirstLiveIsUnique` | gear_optimizer/frontier/producer_kernels.py:1068-1078 | There is one least live index |
| `Successors.FreshEpoch` | gear_optimizer/frontier/producer_reducer.py:91-99 | Under an epoch no stamp holds, whatever the arrays hold is an empty removal structure |
| `Successors.Remove` | gear_optimizer/frontier/producer_kernels.py:1082-1087 | Removes exactly one index and returns the next live one |
| `Successors.Workspace.ReserveEpochs` | gear_optimizer/frontier/producer_reducer.py:91-99 | The epochs reserved are ones no stamp holds, none past the reset limit |
| `Reachability.Prepass` | gear_optimizer/frontier/producer_kernels.py:1139-1272 | Raises exactly on inputs its checks refuse; else the marks are the least set of states closed under first-section and per-state action ends, and the width is the widest extension taken in it |
| `Reachability.ClosureIsUnique` | gear_optimizer/frontier/producer_kernels.py:1139-1150 | There is one least closed set |
| `Reachability.MarkedWithinClosed` | gear_optimizer/frontier/producer_kernels.py:1018-1064 | Marking an action's ends stays inside every closed set |
| `Reachability.PrepassPerFeverTime` | gear_optimizer/frontier/producer_kernels.py:3103-3136 | Fever times that share one reservation each run on a fresh epoch, so each prepass is the closure of its own chart |
| `ReachableEnds.ClosureIsFull` | gear_optimizer/frontier/producer_kernels.py:261-275 | Skipping late activations loses nothing: the prepass's marks are the least set closed under all that every valid Perfect and late activation taken contributes (each end from its early exit to the later of its Perfect-floor and Great-floor end), and its width is the widest extension of all of them |
| `ReachableEnds.LateExtendsIs` | gear_optimizer/frontier/producer_kernels.py:261-275 | A late hit's edge is kept exactly when some later note can be hit in its fever, as a Perfect or as a Great, and cannot in the Perfect hit's |
| `ReachableEnds.TimesOrderRows` | gear_optimizer/frontier/producer_precompute.py:288-354 | Tables precomputed from rising floors and exit ceilings keep what the skipping needs: of a note with both activations the late one exits and ends no earlier |
| `ReachableEnds.EndIs` | gear_optimizer/frontier/producer_kernels.py:1798-1805 | A clamped search of the floors is the last note a fever of that cutoff can end before |
| `ReachableEnds.CoreMarks` | gear_optimizer/frontier/producer_kernels.py:859-886 | A region core marks what its Great hit contributes, or nothing exactly when its Perfect hit's fever carries every note of the late one's; without a Great activation what its Perfect hit contributes |
| `ReachableEnds.SkippedCoreIsCovered` | gear_optimizer/frontier/producer_kernels.py:859-886 | Where a core marks nothing, every end of its Great hit is one its Perfect hit contributes |
| `FillRuns.LateWithinPerfect` | gear_optimizer/frontier/producer_reducer.py:152-180 | The late-Great runs hold only fills the Perfect runs hold |
| `FillRuns.ExactRuns` | gear_optimizer/frontier/producer_reducer.py:152-180 | The runs pass the prepass's check and hold exactly the (eligible) fills; refused exactly for a negative fill or misaligned columns |
| `FillRuns.ExtensionWithinBound` | gear_optimizer/frontier/producer_reducer.py:117-149 | No early-Great extension of any activation and cutoff is longer than the song's gap bound |
| `Fenwick.Query` | gear_optimizer/frontier/producer_kernels.py:1276-1286 | The prefix maximum over the positions up to idx, stale stamps reading as nothing |
| `Fenwick.Update` | gear_optimizer/frontier/producer_kernels.py:1289-1298 | Raises one position's best and leaves every other one as it was |
| `BodyHull.Push` | gear_optimizer/frontier/producer_kernels.py:1580-1606 | One candidate through the skyline and the hull: the rows kept come from the batch, cover every candidate in every direction of the score, and stay a hull per normal-Great count |
| `BodyHull.PoppedValue` | gear_optimizer/frontier/producer_kernels.py:1592-1599 | A popped row is never the best in any direction A, p, q >= 0 |
| `BodyReduce.Touch` | gear_optimizer/frontier/producer_kernels.py:1302-1331 | A candidate keeps its pair's best fever, drops a negative count, and raises exactly when its pair would land past the radix |
| `BodyReduce.Reduce` | gear_optimizer/frontier/producer_kernels.py:1610-1665 | The kept rows are candidates, reach every candidate in every direction, and none is dominated or under a chord |
| `BodyReduce.SameMaximum` | gear_optimizer/frontier/producer_kernels.py:1613-1635 | For all weights A, p, q >= 0 the kept rows have the batch's maximum of A x fever - p x normal Greats - q x fever Greats |
| `BodyTails.KeepState` | gear_optimizer/frontier/producer_kernels.py:2228-2250 | A state's candidates through the reduce and then the cone filter: of every candidate some kept row dominates, at every corner of the stat box, a reduced row that covers it in the direction asked; without a candidate the empty tail |
| `BodyTails.TailsAreLossless` | gear_optimizer/frontier/producer_kernels.py:2117-2265 | State by state over the whole chart: for every run of sections and every stat line of the game's box some kept tail is worth, floors and all, at least as much as the run's counts |
| `BodyTails.WindowsAreBatch` | gear_optimizer/frontier/producer_kernels.py:2117-2260 | Where the packet rows of a state's windows are its extensions, what the queues hold of them after skylines and pushes is a batch that covers every extension, as the pass needs |
| `BodyTails.PlaysAreLossless` | gear_optimizer/frontier/producer_kernels.py:2117-2265 | So whatever head and counts lead to a state, the play over the best kept tail scores at least as much note by note as the play over any run |
| `BodyTails.TailsAreRuns` | gear_optimizer/frontier/producer_kernels.py:2117-2265 | Every kept tail is the counts of some run, so nothing is made up |
| `BodyTails.FilterLosesDirections` | gear_optimizer/frontier/producer_kernels.py:1520-1536 | Only within the box: a concrete row the filter drops is the only best one in a direction where Greats cost nothing |
| `SkylineQueue.PacketSkyline` | gear_optimizer/frontier/producer_kernels.py:1695-1705 | In place: the rows left are the packet's Pareto skyline, one of equal ones |
| `SkylineQueue.AppendKeeps` | gear_optimizer/frontier/producer_kernels.py:1669-1692 | One insertion keeps a skyline that covers every point so far |
| `FamilyQueues.Push` | gear_optimizer/frontier/producer_kernels.py:2068-2113 | Appends a packet's rows to its family's queue, dropping what they dominate, across compaction and growth; the other families are untouched |
| `FamilyQueues.MakeRoom` | gear_optimizer/frontier/producer_kernels.py:2092-2104 | Compaction and doubling keep the live rows of every family |
| `FamilyQueues.Advance` | gear_optimizer/frontier/producer_kernels.py:2178-2213 | Moving a window down keeps: for every packet row of every activation in [state + start, state + end] a queued row of the window that weakly dominates it, and nothing expired |
| `FamilyQueues.Run` | gear_optimizer/frontier/producer_kernels.py:2162-2230 | At every processed state every family's queue covers its window, across skipped states |
| `FamilyQueues.ReadCoversWindow` | gear_optimizer/frontier/producer_kernels.py:2004-2027 | The rows read from a queue cover every packet row of the window in every direction of the score |
| `LaneSums.Reachable` | gear_optimizer/frontier/producer_kernels.py:450-593 | Raises exactly past the word limit or on an illegal lane; else true exactly when one allowed prefix per lane can be chosen whose events and Greats sum to the targets |
| `ActivationTest.ActivationReachable` | gear_optimizer/frontier/producer_kernels.py:597-708 | True exactly when the bar fills on the activation, its hit lies in its window and the lanes have prefixes with the wanted events and Greats; raises exactly when the table would be too large and the chart's prefix is no certificate |
| `ActivationTest.PrefixIsChoosable` | gear_optimizer/frontier/producer_kernels.py:656-695 | Where the chart's own prefix is legal at the hit, the exact lane test would pass |
| `ActivationTest.FloorsAre` | gear_optimizer/frontier/producer_kernels.py:668-681 | The last floor before, in and after the run stand for all notes before the activation |
| `ActivationTest.StayOpen` | gear_optimizer/frontier/producer_kernels.py:683-693 | Looking at later notes only while their own times lie before the hit decides whether all of them can still be hit then |
| `ActivationTest.NeverIllegal` | gear_optimizer/frontier/producer_kernels.py:527-532 | With windows around rising times no lane's windows are illegal, so that refusal never comes |
| `ActivationTest.LabelsAre` | gear_optimizer/frontier/producer_kernels.py:528-530 | A note's hit window is that of the label the bar fills it by |
| `LaneSums.MergeLane` | gear_optimizer/frontier/producer_kernels.py:567-589 | Merging a lane turns the table of the lanes before it into the table with it |
| `LanePrefixes.ScanLane` | gear_optimizer/frontier/producer_kernels.py:514-565 | The range of prefixes a lane allows, and how many Greats each has |
| `LaneTable.MergeOption` | gear_optimizer/frontier/producer_kernels.py:570-586 | The packed shift-and-or sets exactly the counts the option reaches |
| `LaneTable.ShiftRow` | gear_optimizer/frontier/producer_kernels.py:576-586 | Shifting one packed row: every bit lands `greats` places up, across word borders, and no other |
| `BodyCone.BodyConeFilter` | gear_optimizer/frontier/producer_kernels.py:1522-1536 | In place: keeps the undominated rows, one of equal ones, in their order, and every row has a kept dominator |
| `BodyCone.ConeKept` | gear_optimizer/frontier/producer_kernels.py:1444-1474 | Whatever order the sort leaves ties in, the kept rows are exactly the undominated ones |
| `BodyCone.MarginIsMetric` | gear_optimizer/frontier/producer_kernels.py:1364-1380 | The margin is a metric on rows |
| `BodyCone.DominanceIsTransitive` | gear_optimizer/frontier/producer_kernels.py:1445-1450 | So dominance by the margin at 16 corners is transitive |
| `ConeBox.BoxFromCorners` | gear_optimizer/frontier/producer_kernels.py:1338-1347 | A gap of at least m at the 16 corners is at least m over the whole E, b, c, f box |
| `BodyCone.DominatorWorthMore` | gear_optimizer/frontier/producer_kernels.py:1338-1380 | Dominance lifts to every stat line of the box, every floor included |
| `BodyCone.FilterIsLossless` | gear_optimizer/frontier/producer_kernels.py:1522-1536 | Every row has a kept row that scores at least as much under the floored note-by-note scoring at every stat line of the box, whatever identical head and counts are added to both |
| `BodyCone.GameGreatBaseInBox` | gear_optimizer/score.py:38-54 | The game's own Great base lies in the box the filter assumes |
| `StructuralPrune.Prune` | gear_optimizer/frontier/producer_kernels.py:2781-2822 | The pass keeps exactly the rows no other row dominates, one of identical ones |
| `StructuralPrune.DominatorFirst` | gear_optimizer/frontier/producer_kernels.py:2781-2795 | The sort key puts every dominator before what it dominates |
| `StructuralPrune.DominatorScoresMore` | gear_optimizer/score.py:121-156 | A dominating row never scores less, for every base, Great base and ramp with fever of at least 1, note by note |
| `StructuralPrune.PatternBits` | gear_optimizer/frontier/producer_kernels.py:2804-2813 | The word tests answer exactly: same overlap, fever contained, Greats contained |
| `StructuralPrune.PopcountWithin` | gear_optimizer/frontier/producer_kernels.py:2785-2791 | A contained mask has fewer bits, or is the same |
| `SurfaceRows.SurfaceBits` | gear_optimizer/frontier/producer_surfaces.py:6-25 | The eight 32-bit words score exactly the notes the 64-bit masks mark |
| `SurfaceRows.SplitBit` | gear_optimizer/frontier/producer_surfaces.py:6-25 | Splitting 64-bit words into 32-bit halves keeps every bit |
| `FillCrossing.ClosedFormIsWalk` | gear_optimizer/frontier/fill_crossing.py:123-184 | For every start, run, denominator above 0 and chart end the closed form is the first note where the 1-per-Perfect, 1/2-per-Great walk reaches the denominator |
| `FillCrossing.Region3IsPerfectCrossing` | gear_optimizer/frontier/fill_crossing.py:54-96 | The check passes exactly when the walk crosses at the offset, on a Perfect |
| `FillCrossing.LegalIsLateCrossing` | gear_optimizer/frontier/fill_crossing.py:25-51 | The gate passes exactly when the activation lies past the prefix and the bar fills on that Great |
| `FillCrossing.LatePrefixIsReal` | gear_optimizer/frontier/fill_crossing.py:99-120 | A prefix returned is one a late activation crosses after, with fewer than k Greats before it |
| `FillCrossing.Region2OffsetIs` | gear_optimizer/frontier/producer_kernels.py:405-427 | The region offset is the one offset that crosses there, or -1 when there is none |
| `ActionTables.ActionTable` | gear_optimizer/frontier/producer_batch.py:101-124 | The table lists exactly the actions the bar allows, each with its crossings |
| `ActionTables.Compact` | gear_optimizer/frontier/producer_batch.py:127-214 | One row per pair of offsets, of its first action, with the smallest late prefixes of all of them |
| `ActionTables.RowsAreReal` | gear_optimizer/frontier/producer_batch.py:127-214 | Every non-sentinel edge of every compacted row is a crossing of the note-by-note bar, and a Perfect edge is missing only when there is none |
| `ActionTables.NoLateIsLost` | gear_optimizer/frontier/producer_batch.py:154-164 | A row's late activation has the fewest Greats before it of all its actions that activate where one Great fewer does and whose bar fills on that late Great; it is missing only where there is none |
| `ActionTables.EarlyExitMinFill` | gear_optimizer/frontier/producer_batch.py:28-46 | The bisection returns the least fill from 1 on whose fever ends clear every later exit |
| `ActionTables.ClearGrows` | gear_optimizer/frontier/producer_batch.py:28-46 | The condition is monotone in the fill, as the bisection needs |
| `RegionTable.CapacityIsVisits` | gear_optimizer/frontier/producer_kernels.py:762-794 | The closed-form capacity equals the number of (section, action, offset) triples the build visits, and its guard never trips |
| `RegionTable.BuildTable` | gear_optimizer/frontier/producer_kernels.py:926-1014 | The rows hold exactly each section's candidates that have a core, in order, with their cores; the cursor never passes the capacity, and only a chart of more than 32,768 notes can make a lane test, and so the build, raise |
| `RegionTable.SectionHolds` | gear_optimizer/frontier/producer_kernels.py:969-1003 | A row holds exactly the candidates of every action, whatever the scan's stop leaves out, that have a core |
| `RegionTable.VisitsEveryRun` | gear_optimizer/frontier/producer_kernels.py:431-446 | For ascending counts exactly these offsets are visited: those at which the run's last Great fills the bar, for every action, and the late start in the head's sections |
| `RegionTable.NoRunPastStop` | gear_optimizer/frontier/producer_kernels.py:431-446 | From the scan's stop on no run's last Great can fill the bar, at any offset |
| `RegionCores.FindCore` | gear_optimizer/frontier/producer_kernels.py:798-855 | A candidate's core: where its run fills the bar, the least Great end with which a Great activation can be hit or the run's own end for a Perfect one, and the latest hits; or it has none |
| `RegionCores.CoreIs` | gear_optimizer/frontier/producer_kernels.py:798-855 | By the bar and the hit windows alone: where the run fills the bar on a Great the core is that of the shortest run that works, at the latest hit of the note's late-Great window, on a Perfect the run's own; its Perfect hit is the latest of the Perfect window; none where no such hit works |
| `RegionCores.FirstEndIs` | gear_optimizer/frontier/producer_kernels.py:712-751 | The end found is the least from the activation on, up to the stop, with which it can be hit; none found, there is none |
| `RegionCores.LatestHitIs` | gear_optimizer/frontier/producer_kernels.py:213-249 | The capped hit is the latest of the window after which every later note whose own time lies before it can still be hit |
| `RegionCores.KeptRunFills` | gear_optimizer/frontier/producer_kernels.py:798-855 | The run kept, longer or cut at the chart's end, fills the bar where the candidate's does, so the bar never rules a core out |
| `RegionTable.OffsetOfSection` | gear_optimizer/frontier/producer_kernels.py:405-427 | A run's offset is the same in every section until the chart's end cuts it off |
| `RegionTable.BoundsFit` | gear_optimizer/frontier/producer_scheduler.py:51-67 | A kept table fits its bound, its bound the build bound, and that the budget |
| `TableScheduler.Schedule` | gear_optimizer/frontier/producer_scheduler.py:145-195 | Whatever order the futures complete in: no MemoryError is raised and every group's result is filled once with its own value |
| `TableScheduler.Admit` | gear_optimizer/frontier/producer_scheduler.py:163-171 | Admission keeps reserved bytes = sum over live builds and reductions <= budget, stops only for the workers or the bytes, never past the worker limit, and with nothing live the next group always fits |
| `TableScheduler.CompleteOne` | gear_optimizer/frontier/producer_scheduler.py:173-194 | A completion fills a reduction's result or turns a build into a reduction of its table's bytes, keeps the accounting and makes progress |
| `TableScheduler.TablesFit` | gear_optimizer/frontier/producer_scheduler.py:51-67 | The bounds of a song's groups, each with its own fever fill, fit the byte budget of its exhaustive table, which is what the schedule needs |
| `Pools.PruneMinis` | gear_optimizer/pipeline/pools.py:89-130 | The survivors still hold a match for every team of up to three minis, at most three have equal axes, and while more than three are left none has three dominators |
| `Pools.MinisSurvive` | gear_optimizer/pipeline/pools.py:89-130 | For every team of three distinct minis there are three distinct survivors with equal summed FT and FF and no smaller PP, CM, FM, primary and secondary sums, so no monotone score falls |
| `Pools.CapAlike` | gear_optimizer/pipeline/pools.py:101-109 | The first three rows of each kind of axes are left, of each kind as many as there were up to three, and no team of up to three loses its match |
| `Pools.DropKeeps` | gear_optimizer/pipeline/pools.py:111-130 | Leaving out a row with three stand-ins loses no team |
| `Pools.TotalsAre` | gear_optimizer/pipeline/pools.py:13-30 | The totals compared are the items' summed stats and their summed amounts of the song's elements, none for an element the song does not have |
| `Pools.PruneGear` | gear_optimizer/pipeline/pools.py:54-86 | Keeps, in order, the first witnesses no row of the slot dominates |
| `Pools.GearSurvives` | gear_optimizer/pipeline/pools.py:54-86 | For every gear of a slot a kept one has equal timing and no less elsewhere, so no monotone score falls |
| `Pools.LoadoutSurvives` | gear_optimizer/pipeline/pools.py:54-130 | For every loadout of the catalog, a gear per slot and three distinct minis, the pruned pools hold one of equal summed timing and no smaller summed axes, so the best of any monotone score survives |
| `WorkerPool.ReportedOnce` | gear_optimizer/pipeline/workers.py:31-136 | In every state of every interleaving: no task is reported twice, the counts are the reports, the parent always knows a task it is told of, and an error has stopped the run |
| `WorkerPool.EndsWithAllReported` | gear_optimizer/pipeline/workers.py:113-136 | When the parent's loop ends without a stop request, every task is reported exactly once and there is no error |
| `WorkerPool.MarkersCover` | gear_optimizer/pipeline/workers.py:50-54 | The end markers left cover the running workers that have not taken one, so no worker waits on an empty queue |
| `WorkerPool.StepKeeps` | gear_optimizer/pipeline/workers.py:31-136 | Every step of a worker, its death in the loop or after it included, and of the parent keeps the protocol's invariant |
| `WorkerReports.EndsTruthfully` | gear_optimizer/pipeline/workers.py:113-136 | When the parent's loop ends, stopped or not: the tasks reported stored are exactly those some worker sent done, the failed ones exactly those one sent failed or died in, and there is an error exactly if a worker lost its GPU or died outside a task |
| `WorkerReports.ErrorIs` | gear_optimizer/pipeline/workers.py:69-112 | In every state of every run there is an error exactly when an earlier step had the parent read of a lost GPU or handle the exit of a worker that died outside a task |
| `WorkerReports.ReportsAreTrue` | gear_optimizer/pipeline/workers.py:69-112 | In every state no task is reported stored or failed, and no error raised, without a worker's own step |
| `WorkerReports.RunIsTruthful` | gear_optimizer/pipeline/workers.py:69-112 | In every state everything a worker did is reported or still in its pipe or exit, and nothing else is |
| `Boards.Merge` | gear_optimizer/store/boards.py:45-64 | The result is the first 51 eligible by (score descending, sequence ascending) on each board of the stored loadouts with every result merged in; every listed score is a stored row's or a result's of that loadout, none is lower than any of them, each row's replays, items and base score are those of its loadout's first best meta and last best FG entry, sequence numbers stay distinct, and whatever score a stored row listed is still reached on a board, unless only the FG board listed it and its last best FG result alone is no better than its own base score |
| `Boards.Merger.MergeAll` | gear_optimizer/store/boards.py:45-64 | The merger's state after all results is the fold of the meta sides and then of the FG sides over them in order, with no stored side lowered |
| `Boards.ListedIsMerged` | gear_optimizer/store/boards.py:89-143 | A listed row's score, meta replay and items are those of the first stored row or result of its loadout with the highest meta score; its FG score and FG replay those of the last with the highest FG score, its items and base score too where there is no meta side; without an FG result it keeps the stored replay |
| `Boards.ListedShowsSeen` | gear_optimizer/store/boards.py:103-141 | A listed row without an FG result shows the best FG score seen with its loadout's meta results, none if that is 0 |
| `Boards.StoredGoesFirst` | gear_optimizer/store/boards.py:146-152 | Of equal scores a stored entry stays before any new one, on both boards |
| `Boards.FoldedIsBest` | gear_optimizer/store/boards.py:89-131 | After the fold each loadout's meta and FG score is the highest among its stored one and its results', reached by one of them, and a stored loadout keeps its sequence numbers |
| `Boards.ResultsReached` | gear_optimizer/store/boards.py:45-64 | A listed loadout's meta and FG scores are at least those of each of its results |
| `Boards.Normalize` | gear_optimizer/store/boards.py:146-161 | Board flags are set exactly for the first 51 of each board; rows on neither are gone |
| `Boards.RankIsPlace` | gear_optimizer/store/boards.py:146-161 | A candidate's rank is its place in the sorted list |
| `Boards.MetaKeeps` | gear_optimizer/store/boards.py:89-108 | Merging a meta result keeps sequence numbers distinct and below the next one |
| `Boards.FgKeeps` | gear_optimizer/store/boards.py:111-131 | So does merging an FG result |
| `Boards.ListedNumbered` | gear_optimizer/store/boards.py:146-161 | The listed rows keep distinct sequence numbers |
| `Boards.SurvivorsNoWorse` | gear_optimizer/store/boards.py:45-64 | A stored loadout still listed has a meta and an FG score no lower than before |
| `Boards.BestNotLowered` | gear_optimizer/store/boards.py:45-64 | Whatever score a stored row listed, some listed row still reaches on one of the boards |
| `Boards.FgOnlyStays` | gear_optimizer/store/boards.py:111-143 | A stored row that only the FG board lists and no meta result comes to: it keeps an FG score no lower, and it stays eligible if and only if it has no FG result, or none as good as its own, or the last of its FG results of highest FG score has one above its base score |
| `Boards.BestFgIs` | gear_optimizer/store/boards.py:111-131 | That result is the last of the loadout's FG results with the highest FG score |
| `Boards.FgAloneUnlists` | gear_optimizer/store/boards.py:111-143 | Where that fails: a concrete FG result alone, no better than the base score it brings, takes its loadout off the boards |
| `BundleCodec.Pack` | gear_optimizer/frontier/fg_cache_serde.py:33-57 | Packing refuses exactly when the frontiers have more distinct heads than int32 pattern IDs; else equal frontiers share a segment, every frontier's range of the stored tables holds its rows, and up to 2^31 - 1 rows the 32-bit offsets and counts are exact |
| `BundleCodec.PatternsAreHeads` | gear_optimizer/frontier/fg_cache_patterns.py:60-76 | The interned patterns are the distinct head words, each once, in lexicographic order |
| `BundleCodec.PackedReturns` | gear_optimizer/frontier/fg_cache_serde.py:70-96 | Unpacking what was packed gives back the frontiers, every row unchanged and in order |
| `BundleCodec.SegmentIds` | gear_optimizer/frontier/fg_cache_serde.py:11-30 | Frontiers share a segment exactly when their rows are equal, whatever the digest collides on |
| `BundleCodec.UnpackFrontiers` | gear_optimizer/frontier/fg_cache_serde.py:70-96 | Every frontier's rows are those stored at its range, a shared segment expanded once |
| `BundleCodec.PatternRoundTrip` | gear_optimizer/frontier/fg_cache_patterns.py:76-119 | Packing eight mask words and 16-bit coefficients into ten words and back loses nothing |
| `BundleCodec.PlanesRoundTrip` | gear_optimizer/frontier/fg_cache_store.py:67-77 | Byte planes and columns are inverse |
| `BundleCodec.WordsRoundTrip` | gear_optimizer/frontier/producer_surfaces.py:6-25 | Splitting a row into 32-bit words and back is the row |
| `BundleCodec.SegmentInPool` | gear_optimizer/frontier/fg_cache_serde.py:33-57 | A segment's rows lie at its offset in the pool |
| `HeadCoeffs.SurfaceHeadCoeffs` | gear_optimizer/frontier/fg_cache_patterns.py:20-44 | The coefficients added up from 16-bit table halves are those counted note by note, and fit 16 bits |
| `HeadCoeffs.BlockFromHalves` | gear_optimizer/frontier/fg_cache_patterns.py:20-44 | A block's first notes from its two halves |
| `HeadCoeffs.OfHeadFits` | gear_optimizer/frontier/fg_cache_patterns.py:83-103 | For every head length and pattern the coefficients fit the 16 bits they are packed in |
| `HeadCoeffs.PackAndUnpack` | gear_optimizer/frontier/fg_cache_serde.py:33-96 | Packing frontiers with their heads' coefficients and unpacking them gives them back row for row, or there are too many distinct heads |
| `BeamSearch.Search` | gear_optimizer/solver/fg_search.py:24-72 | For any score function the search with rising floors goes through the beams of the search without floors, every total found is exactly scored, and it ends |
| `BeamSearch.RunPass` | gear_optimizer/solver/fg_search.py:48-70 | One pass gives the same next beam and the same scored totals as without floors |
| `BeamSearch.PassGrows` | gear_optimizer/solver/fg_search.py:48-70 | A pass that changes the beam scores a total that was not scored, of a finite set |
| `BeamSearch.NextKey` | gear_optimizer/solver/fg_search.py:55-66 | Found or pruned, the next key leaves the best of the contenders as admitting it would |
| `FeverTimeline.Timeline` | gear_optimizer/solver/fever_timeline.py:17-70 | With a fill of at least 2 the section loop's mask, counts, activations and last end are those of the game's fever bar note by note; the mask is the bar's if and only if the fill is at least 2 or the chart has no note |
| `FeverTimeline.SectionFills` | gear_optimizer/solver/fever_timeline.py:33-45 | A section's notes up to the one that fills the bar are out of fever |
| `FeverTimeline.Burns` | gear_optimizer/solver/fever_timeline.py:47-55 | A fever holds until the first note at or past its end |

## Left out

Whole parts:

- The HTTP service, the command line, settings, logging, progress displays, self-update, CPU affinity and other system calls: input and output.
- SQLite, file locks, zip and npz files, cache manifests: only the pure bundle codec is modelled, with its digest an arbitrary function.
- The Taichi runtime and the genetic algorithm's operators (crossover, mutation, tournaments): heuristics with no claim of optimality.
- Floating-point rounding of bounds, curves and scores: exact reals; the margins 1024, 1025 and 128 are kept. The exception is the binary64 product.
- The stat curves' easing, chart parsing, catalog reading, naming and hashing of loadouts, the general meta report: they only supply inputs.
- The hit-time tables of producer_precompute.py are not part of this model: what `Reachability` needs of them is its precondition `Tables` (valid rows, monotone floors, ends past their activation).
- The head half of the producer: the head envelope filter, the head states and their points, the skyline pass per pattern (the same push as `BodyHull.Push`), the building of packets and packet families. Packets are inputs of `FamilyQueues`.
- The table scheduler's sequential path and its thread pools: futures complete in any order in `TableScheduler`.
- The timeline surface grid, and `best_timeline_score`.

What the members above leave open or assume:

- GemLoadouts.ScoreLoadouts: curves are non-decreasing with Combo and Fever Multiplier at least 1 and Perfect Points at least 0, every frontier holds a row and every key a group. When a CM row of a block has no pair the source still reads its bound table, with a negative index, and never uses the value; the model skips that row. The two head tables are one record per pattern; sorting the batch by stat line and spreading it over threads is left out.
- SplitCaps.CutIsExact: the source's comment says a gem past a cap takes value away; it also stops at the floor, so a key of -3 or lower (with gems enough to rise above zero) loses splits. `SplitCaps.LowKeyLoses` gives the table, and the later results take the condition.
- SplitScores.KeptMatches: the best score is always kept; the winning split itself may be beaten by one that ties with it only where an element gem raises no color (`SplitScores.ElementlessTies`), else `SplitScores.WinnerIsKept` holds.
- SplitScores.RaisedLine: the split table is given by which colors an FT and an FF gem raise, as the search's caller builds it.
- ShortlistSweep.FtffShortlist: the options of a surface are a sequence in the source's order instead of counting-sort arrays, and the surfaces come without duplicates.
- ShortlistScores.ShortlistHoldsBest: Base play is scored note by note like every play here. That a beater scores strictly more unless the two are identical, as the source's comment says, is false (`ShortlistTies.BeaterTies`); `ShortlistTies.StrictlyMore` says exactly when it does.
- ShortlistTies.HighestExact: the source's comment (ftff_combos.py:70-71) calls the highest index the GA's tie-break, but the GA's lanes take the lowest combo of a tie (gpu/kernels.py:377-387); both are stated, with the inputs where each winner is lost. Within the color gains the conditions are exact for the claim over all timelines, songs, loadouts and keys, not for a single one.
- ReachableKeys.ReachableFtffKeys: item stats are not negative, as the grid's indices need.
- NoteScores.NoteScore: single precision is any rounding within 2^-24 of its argument; the shortcut's own comparison is over reals. Scores are between 1 and 2^31.
- SurfaceSearch.SurfaceSearch: whole-number Perfect Points; an FM gem raises the base no more than an element gem.
- ReferenceBound.ReferenceCovers: for a reference whose base values are at least 1, the guard of the source's bound; where they may reach 0 it puts 1e20 in place of infinity, which is not modelled. Which surface is taken as the reference does not matter to the bound and is left out.
- GenomeSearch.SearchGenome: the lanes' interleaving is any order of the combos and any earlier incumbent; which surface and pair the first incumbent is taken from is given.
- Reachability.Prepass: the lower bound on Great floors is over real times.
- ReachableEnds.ClosureIsFull: for tables in order, as `ReachableEnds.TimesOrderRows` gets them from times, and late runs within the Perfect runs, as `FillRuns.LateWithinPerfect` has them. A region core counts by the ends it marks: that its Perfect hit would reach those it skips (`ReachableEnds.SkippedCoreIsCovered`) does not say that some other action marks them.
- BodyReduce.Reduce: the touched pairs are a sequence with their count and the kept rows a sequence; growing the row store by doubling is left out. Ordering the pairs uses `FillRuns.Unique`.
- BodyTails.TailsAreLossless: a state's candidates are a batch that covers every extension of the kept tails; `BodyTails.WindowsAreBatch` gets it from the packet skylines and family queues, where the packets of the windows hold the extensions, and the building of packets is left out. Edges have counts that are not negative. Losslessness is for the stat lines of the game's box, no wider, as `BodyTails.FilterLosesDirections` shows.
- SkylineQueue.PacketSkyline: the skyline of a buffer from its start, as the body pass calls it.
- ActivationTest.ActivationReachable: times and hits are reals, so the hit is not rounded to float32; floors never fall, windows hold their note's own time, and the run lies inside the section, as the producer's tables and its callers have it.
- RegionCores.LatestHitIs: windows end at least the 1e-6 the cap takes off after the note's own time, or the cap is no later than the activation's own time, as with fixed timing.
- RegionTable.SectionHolds: for counts of forced Greats that ascend, as the action table lists them.
- RegionTable.BuildTable: a hit is kept as its time instead of the song token that names it.
- LaneSums.Reachable: the activation lies inside the section, as its callers check; times are reals.
- BodyCone.BodyConeFilter: corner scores are exact reals, the SWAR bit count of the margin is a bit count of the words, and the sort's order of ties is any.
- StructuralPrune.Prune: the sort's order of equal keys is any; its packed key needs the counts below the radix.
- FillCrossing.ClosedFormIsWalk: denominators above 0, the source raises otherwise.
- ActionTables.EarlyExitMinFill: the source's comment speaks of every later note's latest Perfect, its code takes the least of the later ones; the model follows the code.
- FeverTimeline.Timeline: with a fill of 1 the loop ends before the first note and marks nothing although the bar fills on it; its contract states exactly when loop and bar agree.
- WorkerPool.EndsWithAllReported: at least one worker; pipes and the queue are sequences, solving and storing are one step. A worker may exit for memory, die anywhere in its loop, or die after it while its GPU work stops; a death that leaves the queue's read lock held, which would block the other workers, is not modelled.
- WorkerReports.EndsTruthfully: whether a worker that dies while its GPU work stops was in a task is what the parent has read from it and its pipe; labels and texts of the reports are left out.
- Boards.Merge: rows are a map by hash, the order of the returned list is left out, and stored sequence numbers are distinct and below the next ones. That no listed score is lost is false for a row only the FG board lists (`Boards.FgAloneUnlists`); `Boards.FgOnlyStays` says exactly when it stays eligible.
- BundleCodec.Pack: past 2^31 - 1 pool rows the 32-bit offsets would wrap around; the per-frontier counters are left out.
- BeamSearch.Search: neighbourhoods, totals and scores are arbitrary functions, with totals from a finite set.
