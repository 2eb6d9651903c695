# A verified model of the arbitrage engine's algorithms

The engine watches a set of DEX pools, looks for cycles of swaps that end with more of the token they
started with, sizes and splits them, and submits the best ones. This project models the algorithms
under that pipeline in Dafny and proves what they are relied on for, over all inputs and all runs.

One module stands for one source component:

| file | component |
|---|---|
| `Common.dfy`, `Sorting.dfy` | results that may be missing, saturating 128-bit arithmetic, sums, truncation, a stable sort |
| `RationalCurve.dfy` | the output curve `n*x / (c + s*x)` of constant-product pools over the reals |
| `UniswapV2.dfy`, `StablePool.dfy` | integer quotes: constant product; Aerodrome stable (x^3*y + x*y^3) and volatile pools |
| `FastSizer.dfy` | closed-form input sizing along a path of constant-product pools |
| `V2Split.dfy` | water-filling over parallel pools by bisection, then an integer rebalance |
| `SplitOptimizer.dfy` | greedy slice allocation, single best pool, turning allocations into plans |
| `HopOptimality.dfy` | how close a water-filled hop comes to the best split, in the integers the pools pay |
| `RouterSearch.dfy` | memoised evaluation, ternary narrowing, the dense tail, rescaling of splits |
| `QuoteCache.dfy` | the segmented least-recently-used quote cache |
| `GraphModel.dfy`, `DistanceCache.dfy` | the token graph with its indexes; reachability from and to anchors |
| `PathSearch.dfy` | the layered beam search with its caches |
| `CycleKeys.dfy`, `CandidateSelection.dfy`, `CandidateSearch.dfy` | cycle keys, ranking and selection, joining paths into candidates |
| `Reorg.dfy` | the bounded canonical chain with two indexes |
| `NonceManager.dfy`, `RiskManager.dfy`, `Engine.dfy` | nonce book, risk ledger, and the submission tail that drives both |
| `LogScan.dfy` | the chunked log scans that shrink and regrow their ranges |

Code that updates state in place is written as classes and loops whose contracts equate the new state
with a function of the old one; what the source relies on is then proved about those functions.
`dafny verify dfyconfig.toml` checks everything.

## How the source is read

- `f64` is the real numbers, and a square root is an exact root passed in as a function. `u128` operations
  saturate at `2^128 - 1` where the source says `saturating_*`; checked 256-bit operations are options that
  fail. `i64` scores saturate on both sides.
- A pool quote, a node reply, a receipt and the clock are arbitrary functions or arbitrary inputs. Quotes
  that are asked for concurrently may come back in any order, so any job with the largest marginal output
  may win a round (`SplitOptimizer`); the answers of a range arrive in any order (`LogScan.Arrival`).
  Hash maps yield their entries in any order (`PathSearch.Search.order`, `CandidateSearch.ListPairs`,
  `CandidateSearch.FlattenVariants`).
- An address is a number of 160 bits; its text is any injective rendering of fixed width
  (`CycleKeys.FixedWidth`). Hexadecimal digits are one (`CycleKeys.HexIsFixedWidth`), so every graph snapshot
  can be searched (`CandidateSearch.EverySnapshotHasASetup`), and `CandidateSearch.ExampleIsFindable` shows a
  setup that meets all preconditions of the search and of its completeness at once.
- Pool health is a boolean per edge, edge weights, rates and capacities are given numbers, and the token
  policy with the capacity prefilter of candidates is a given predicate.
- Locks are left out: each method is one step. `find_common_ancestor` and `cancel` lock maps that their
  callers already hold; here they read and update the same maps.

## Where the code does less than one might expect

Each of these comes with the exact condition under which the code does meet the property, and with a
concrete input on which it does not.

- A constant-product quote can pay more than its curve when its denominator saturates, also for reserves of
  112 bits (`UniswapV2.SaturationExample`, condition in `UniswapV2.QuoteBelowCurveIff`); the volatile Aerodrome
  branch likewise (`StablePool.VolatileLeakExample`, condition in `StablePool.VolatilePoolLosesIff`).
- A constant-product quote can also pay far less than its curve, because its numerator saturates: on reserves of a
  million 18-decimal tokens one token is quoted at less than a billionth of what the curve pays
  (`UniswapV2.SaturatedNumeratorExample`). It is within a unit of the curve if and only if the saturated
  numerator leaves room for the true quotient (`UniswapV2.QuoteNearCurveIff`).
- The first 128-bit sum of the rebalance overflows for two equal pools with a 60% fee and a total of
  `2^128 - 1` (`V2Split.OverflowExample`); `V2Split.SolveAllocations` says exactly when, and
  `V2Split.HeadroomPreventsOverflow` gives a margin that rules it out. The model fails the call there, as a
  build with overflow checks does; a release build wraps the sum around instead. The reserves of the example,
  about `2^125`, are 128-bit numbers as the code stores them, but more than the 112 bits of a pair contract.
- The dense pass looks at every amount of a bracket if and only if the bracket is narrower than twice the
  number of points asked for (`RouterSearch.DenseCoversIff`). The fast-sized search asks for 16 points on
  brackets up to 32 wide, and at exactly 32 it can miss the peak (`RouterSearch.FastSweepMissesAtWidth32`).
  The main search covers its narrowed bracket if and only if it started at most `RouterSearch.WIDEST_BRACKET`
  wide, some 56 million units (`RouterSearch.MainSearchCoversIff`, `RouterSearch.WidestBounds`).
- Narrowing keeps the peak of a hill, whose rise may have plateaus, if and only if no round finds both of its
  inner points before the peak with the same profit (`RouterSearch.NarrowKeepsPeakIff`). A strict rise never
  ties (`RouterSearch.StrictRiseNeverTies`); a plateau of amounts without any plan does, and loses the peak
  (`RouterSearch.PlateauLosesPeak`).
- The final selection is bounded by the configured count, except that a count of zero still yields one
  candidate whenever there is any (`CandidateSelection.FinalizeCandidates`).

## Model

| member | source | states |
|---|---|---|
| `SplitOptimizer.RankJobs` | src/router/split_optimizer.rs:97-134 | a round's winner is an admissible slice that no admissible slice beats, whatever order quotes arrive in; no winner means nothing adds output; a failed quote fails the round |
| `SplitOptimizer.GreedyAllocate` | src/router/split_optimizer.rs:89-149 | allocations sum to what was assigned, at most the input; each positive amount has exactly its quote recorded and stays in its cap; at most `max_parallel_pools` pools are used; the loop ends only when all is spent or no admissible slice gains; it is reached by rounds that each give the next slice to a pool with the largest marginal; it fails only when such rounds lead to one with a failed quote; with equal slices and diminishing gains no other slice-grid allocation yields more, provided the pool limit keeps no pool out: fewer pools are in use, or no unused pool could take a slice, or there is room for a pool per slice or for all |
| `SplitOptimizer.SeparatedIsOptimal` | src/router/split_optimizer.rs:92-149 | a price that separates slices taken from slices left makes an allocation optimal among all grid allocations within caps |
| `SplitOptimizer.PriceBoundsPool` | src/router/split_optimizer.rs:128-148 | moving one pool between any two slice counts gains at most the separating price per slice |
| `SplitOptimizer.LimitDoesNotBind` | src/router/split_optimizer.rs:96-99 | when there is room for a pool per slice or for every pool, the parallel limit never excludes a pool |
| `SplitOptimizer.EqualSlicesIsDivisibility` | src/router/split_optimizer.rs:66-66 | all slices are equal exactly when the input is a multiple of the slice size |
| `SplitOptimizer.SliceCount` | src/router/split_optimizer.rs:66-66 | the input is cut into 8 to 15 slices, or into units when it is below 8 |
| `SplitOptimizer.SplitsWhenPossible` | src/router/split_optimizer.rs:67-72 | a hop is split exactly when there are two pools and two units |
| `SplitOptimizer.LimitWasFree` | src/router/split_optimizer.rs:96-99 | a limit that keeps no pool out at the end kept none out in any earlier round |
| `SplitOptimizer.SingleBest` | src/router/split_optimizer.rs:165-222 | the chosen pool can take the whole input and pays at least as much as every other pool that can; a quote failure among those pools fails the call |
| `SplitOptimizer.Materialize` | src/router/split_optimizer.rs:243-358 | plans are exactly the positive allocations with a positive quote, each with its minimum output, sorted by expected output and pool id; reusing known quotes gives the same plans as asking again; the total is the saturated sum of expected outputs; it fails exactly when a quote it needs does |
| `SplitOptimizer.SortKeepsSums` | src/router/split_optimizer.rs:348-355 | the final sort changes neither what the plans spend nor what they expect |
| `SplitOptimizer.InsistsOnNoMore` | src/router/split_optimizer.rs:281-288 | a split never insists on more than it expects |
| `SplitOptimizer.PlanInPlainTerms` | src/router/split_optimizer.rs:281-288 | a plan spends at most a positive cap of its pool; its minimum output is the pool's share of the expected output, rounded down, from both sides |
| `SplitOptimizer.PlansConserveInput` | src/router/split_optimizer.rs:252-340 | plans never spend more than was allocated, and all of it when every allocation yields something |
| `SplitOptimizer.GreedyPlans` | src/router/split_optimizer.rs:151-161 | after the greedy loop the plans spend exactly what was assigned and expect exactly what was quoted |
| `SplitOptimizer.PlansAreSound` | src/router/split_optimizer.rs:252-340 | every plan stays in its pool's cap, spends something, expects what the pool quotes; there are no more plans than active pools |
| `SplitOptimizer.OptimizePair` | src/router/split_optimizer.rs:49-162 | plans are sound, best first, at most `max_parallel_pools`, and spend at most the input; without a split the best single pool is used; otherwise the plans are those of the water-filling allocation, rounded and rebalanced to exactly the input, and those of the greedy one, with its optimality, only when there is no water-filling allocation or it yields no plan; when the caps can hold the input and every amount pays, all of it is spent; it fails only when a quote the branch asks for fails or the rounded sum overflows |
| `V2Split.LegWaterLine` | src/router/v2_split.rs:80-102 | against one common marginal no other amount within the cap gains a pool more than it costs |
| `V2Split.WaterFillingOptimal` | src/router/v2_split.rs:80-102 | filling every pool to one common marginal yields at least as much as any cap-respecting allocation that spends no more |
| `V2Split.BisectKeepsBracket` | src/router/v2_split.rs:134-149 | after any number of halvings the high marginal never over-allocates and the low one is zero or over-allocates |
| `V2Split.BisectHalvesGap` | src/router/v2_split.rs:134-149 | each step halves the bracket exactly |
| `V2Split.FinalAllocationNearOptimal` | src/router/v2_split.rs:111-150 | before rounding, the bisected allocation spends at most the total and is optimal up to the final marginal times what is left unspent |
| `V2Split.RebalanceShortfall` | src/router/v2_split.rs:157-218 | rounding and rebalancing take from the pools at most one unit each on average |
| `V2Split.ReturnedNearOptimal` | src/router/v2_split.rs:111-220 | the returned integer allocation yields at least as much as any allocation of the total, less the largest initial marginal per pool and the final marginal times the unspent rest, which is less than what the other end of the last bracket adds |
| `HopOptimality.QuoteNearCurve` | src/amm/uniswap_v2.rs:8-30 | while nothing saturates the integer quote is the curve cut off below the next whole unit |
| `HopOptimality.LegOfPool` | src/router/v2_split.rs:10-78 | every usable pool becomes a leg with the pool's curve and its cap, where a cap of zero is none |
| `HopOptimality.PaidNearCurves` | src/amm/uniswap_v2.rs:8-30 | what parallel pools pay together is what their curves pay, less than a unit per pool away |
| `HopOptimality.FinalPlansExpectPaid` | src/router/split_optimizer.rs:252-340 | the plans of an allocation expect exactly what the pools pay for it |
| `HopOptimality.LevelNearOptimal` | src/router/v2_split.rs:111-220 | on the curves the returned allocation, of one pool or several, falls short of any other split within the caps by at most the slack |
| `HopOptimality.WaterFilledNearOptimal` | src/router/split_optimizer.rs:73-87 | whatever split of the input over these constant-product pools is tried within the caps, its integer quotes sum to at most what the plans of a water-filled hop expect, a unit per pool and the slack of rounding and bisection on top, while nothing saturates |
| `V2Split.Drain` | src/router/v2_split.rs:182-199 | takes away exactly the excess, emptying each pool before touching one of higher rank |
| `V2Split.Fill` | src/router/v2_split.rs:200-218 | hands out exactly what is missing whenever the caps can hold it, filling each pool before touching one of lower rank, never above a cap |
| `V2Split.RebalanceToTotal` | src/router/v2_split.rs:172-220 | reaches the exact total within caps whenever they can hold it; pools with the lowest marginal give first and with the highest take first; fails exactly when the first sum overflows |
| `V2Split.SolveAllocations` | src/router/v2_split.rs:111-170 | returned allocations sum to exactly the input, each within its cap; there is no solution exactly when the caps cannot hold the input or it is zero over several pools; the overflow has an exact condition |
| `V2Split.HeadroomPreventsOverflow` | src/router/v2_split.rs:151-175 | half a unit per pool below `2^128 - 1` rules the overflow out |
| `V2Split.FiniteCapacityIsSum` | src/router/v2_split.rs:121-132 | the capacity check compares with the saturated sum of all caps |
| `V2Split.OverflowExample` | src/router/v2_split.rs:151-175 | two pools on which the rounded halves no longer fit 128 bits |
| `RationalCurve.Tangent` | src/router/v2_split.rs:80-102 | the pool's output curve lies below each of its tangents |
| `RationalCurve.PointHasSlope` | src/router/v2_split.rs:86-97 | the closed form inverts the marginal output |
| `StablePool.SolveStableY` | src/amm/aerodrome_v2.rs:148-189 | the loop of 255 rounds computes the iterated Newton step |
| `StablePool.NewtonLandsOnCurve` | src/amm/aerodrome_v2.rs:148-189 | whatever the solver returns reaches the invariant, exactly or for the first time: one unit less does not |
| `StablePool.LeastOnCurve` | src/amm/aerodrome_v2.rs:148-189 | no smaller y reaches the invariant, unless both hit it exactly |
| `StablePool.IdealFMono` | src/amm/aerodrome_v2.rs:127-134 | the truncating curve function is monotone in both arguments |
| `StablePool.IdealFIsCurve` | src/amm/aerodrome_v2.rs:127-134 | the truncating curve function is x^3*y + x*y^3, with bounds from both sides |
| `StablePool.StableDIsSlope` | src/amm/aerodrome_v2.rs:136-146 | the denominator of the Newton step is the slope 3*x*y^2 + x^3, with bounds from both sides |
| `StablePool.NewtonStepMoves` | src/amm/aerodrome_v2.rs:155-186 | a step that goes on goes up from below the curve and down from above it, by the distance over the slope in whole units |
| `StablePool.NewtonStepNearby` | src/amm/aerodrome_v2.rs:155-186 | a step of less than a unit ends at the upper neighbour when the curve passes between the two, at the point itself when that hits it, and otherwise moves on by one |
| `StablePool.StableQuoteKeepsK` | src/amm/aerodrome_v2.rs:89-125 | a stable quote pays at most the reserve and never lets the invariant of the raw reserves fall, through every scaling and truncation |
| `StablePool.StableQuoteKeepsCheckedK` | src/amm/aerodrome_v2.rs:89-125 | the same for `stable_k` with its overflow checks, whenever it can still be computed |
| `StablePool.RoundTripKeepsPoint` | src/amm/aerodrome_v2.rs:104-117 | unscaling the output and scaling the remaining reserve again stays at or above the solved point |
| `StablePool.FloorSuperadditive` | src/amm/aerodrome_v2.rs:97-110 | scaling reserve and input separately loses at least as much as scaling their sum |
| `StablePool.DustBuysNothing` | src/amm/aerodrome_v2.rs:89-118 | an input too small to count in 1e18 units buys nothing |
| `StablePool.StablePoolNeverLoses` | src/amm/aerodrome_v2.rs:10-125 | for every successful quote on a stable pool the invariant is no lower after adding the fee-adjusted (or whole) input and removing the output |
| `StablePool.VolatileLeakExample` | src/amm/aerodrome_v2.rs:10-41 | a volatile pool and a 128-bit input for which the whole quote, fee included, pays out a unit and the product of the reserves falls |
| `StablePool.VolatileQuoteKeepsProduct` | src/amm/aerodrome_v2.rs:34-41 | the volatile quote keeps the product of the reserves if and only if saturation does not leak |
| `StablePool.VolatilePoolLosesIff` | src/amm/aerodrome_v2.rs:10-41 | every successful quote on a volatile pool keeps the product of the reserves if and only if what is left after the fee does not saturate that way |
| `StablePool.FeeIsCharged` | src/amm/aerodrome_v2.rs:82-87 | there is no quote from a fee of a whole on; below, what is left of the input is the share that is not charged, rounded down, from both sides, and where the product saturates a millionth of the largest 128-bit number |
| `StablePool.VolatilePoolPays` | src/amm/aerodrome_v2.rs:10-41 | while nothing saturates, the whole volatile quote, fee included, is what the product curve pays for the share of the input that is not charged, less than a unit of either side away |
| `StablePool.StableQuoteIsTight` | src/amm/aerodrome_v2.rs:89-125 | a stable quote keeps no value back beyond rounding: paying a unit and a 1e18th of a token more puts the point at or below the old invariant |
| `StablePool.StablePoolPays` | src/amm/aerodrome_v2.rs:10-125 | the same for the whole quote of a stable pool, on the input that is left after the fee |
| `StablePool.StableExample` | src/amm/aerodrome_v2.rs:89-189 | a balanced stable pool pays what it got less one unit, computed through the whole solver |
| `UniswapV2.QuoteBelowCurve` | src/amm/uniswap_v2.rs:8-30 | while the denominator fits 128 bits the integer quote stays at or below the real curve, even with a saturated numerator |
| `UniswapV2.QuoteFailsIff` | src/amm/uniswap_v2.rs:8-30 | only an empty pool has no quote; an input of zero buys nothing, and a fee of a whole leaves nothing |
| `UniswapV2.QuoteBelowCurveIff` | src/amm/uniswap_v2.rs:8-30 | for every positive input the quote stays below the curve if and only if the stated saturation does not occur |
| `UniswapV2.SaturationExample` | src/amm/uniswap_v2.rs:8-30 | a pool with 112-bit reserves and an input of a thousand units whose quote exceeds the curve |
| `UniswapV2.QuoteNearCurveIff` | src/amm/uniswap_v2.rs:8-30 | while the denominator fits, the quote is less than a unit below the curve if and only if the quotient of the true numerator is at most that of the largest 128-bit number |
| `UniswapV2.SaturatedNumeratorExample` | src/amm/uniswap_v2.rs:8-30 | a pool of 18-decimal tokens that quotes one token at less than a billionth of what its curve pays |
| `FastSizer.NormalizedKeepsOutput` | src/router/fast_sizer.rs:195-219 | normalisation succeeds on every proper curve and changes no output |
| `FastSizer.NormalizedInBounds` | src/router/fast_sizer.rs:195-219 | the largest coefficient of a normalised curve is within the bounds |
| `FastSizer.ComposeIsComposition` | src/router/fast_sizer.rs:166-181 | the composed curve pays what the second pool pays for the output of the first |
| `FastSizer.ThenIsExact` | src/router/fast_sizer.rs:81-93 | folding in one more pool, normalisation included, keeps the curve equal to the hop-by-hop path |
| `FastSizer.V2PathCurve` | src/router/fast_sizer.rs:81-112 | the fold succeeds exactly on paths of usable pools and its curve equals the composition of the hops |
| `FastSizer.OptimalInputIsGlobal` | src/router/fast_sizer.rs:183-193 | the closed-form input clamped to the range gives at least the profit of every input in the range |
| `FastSizer.NoOptimumNoProfit` | src/router/fast_sizer.rs:183-193 | without a closed-form optimum no input is profitable |
| `FastSizer.CollectAmounts` | src/router/fast_sizer.rs:44-61 | the amounts tried are strictly ascending and in range, and they are exactly the placed shares and multiples of the target, the points a root or a unit to either side of it, and both ends of the range |
| `FastSizer.PlacedIsNearest` | src/router/fast_sizer.rs:114-123 | rounding and clamping places a point at the nearest amount in range, at most half a unit away when the point is in range |
| `FastSizer.PointsComeNear` | src/router/fast_sizer.rs:40-61 | the placed points hold both ends of the range and an amount within half a unit of the target; for a target below half a unit, the unit |
| `FastSizer.SuggestInputAmounts` | src/router/fast_sizer.rs:18-62 | on a usable path the suggestion is empty exactly when nothing in range is profitable on the curve; otherwise it holds both ends of the range, and for some point that maximises the profit over the range it holds an amount within half a unit of it and consists of the points around it |
| `FastSizer.ChainBelowCurve` | src/amm/uniswap_v2.rs:8-30 | chaining integer quotes along a path never beats the folded curve while denominators fit |
| `FastSizer.QuoteBelowLargestFee` | src/amm/uniswap_v2.rs:8-30 | while its denominator fits, a quote is at most the largest flash fee there can be |
| `FastSizer.FlooredFee` | src/router/mod.rs:988-1005 | an output below the curve's cost line leaves nothing after the floored flash fee |
| `FastSizer.FeeIsPremium` | src/router/mod.rs:988-1005 | the floored flash fee is the premium that the marginal cost counts, less than a unit below it; nothing without a flash loan |
| `FastSizer.EmptySuggestionHidesNothing` | src/router/fast_sizer.rs:18-37 | an empty suggestion means that no amount in range leaves a positive difference of chained quote, input and floored flash fee, while denominators along the chain fit; a fee that saturates included |
| `RouterSearch.Evaluator.EvaluateAmount` | src/router/mod.rs:633-650 | the memo answers what a fresh quote would, and remembers exactly the successful answers |
| `RouterSearch.Evaluator.EvaluateProfit` | src/router/mod.rs:617-631 | the profit of an amount without a plan is the smallest number; memo and quote agree |
| `RouterSearch.Evaluator.Sweep` | src/router/mod.rs:364-379 | the kept plan is the earliest of the most profitable ones among the plan so far and the plans of the swept amounts; it fails exactly when the quote of one of them does |
| `RouterSearch.Evaluator.NarrowBracket` | src/router/mod.rs:330-362 | the loop computes the iterated ternary step, and fails exactly when the quote of a point it looks at fails |
| `RouterSearch.Evaluator.NarrowAndSweep` | src/router/mod.rs:330-379 | the dense sweep covers the narrowed bracket's points, and both fail exactly when the quote of an amount they ask for fails |
| `RouterSearch.NarrowStaysInside` | src/router/mod.rs:330-362 | the bracket stays within the range it started from |
| `RouterSearch.NarrowKeepsPeak` | src/router/mod.rs:330-362 | if profit rises strictly to a peak and never rises after it, the peak stays in the bracket at every step |
| `RouterSearch.RoundKeepsPeakIff` | src/router/mod.rs:334-359 | one round loses the peak of a hill exactly when both inner points lie before it and pay the same |
| `RouterSearch.NarrowKeepsPeakIff` | src/router/mod.rs:330-362 | narrowing keeps the peak of a hill if and only if no round meets such a tie |
| `RouterSearch.StrictRiseNeverTies` | src/router/mod.rs:330-362 | a strict rise is a hill on which no round meets a tie |
| `RouterSearch.NarrowWidth` | src/router/mod.rs:330-362 | each round takes off exactly a third and one more until the bracket is at most 32 wide, whatever the profits |
| `RouterSearch.WidthAfterIff` | src/router/mod.rs:330-362 | after so many rounds a bracket is at most a given width exactly when it started no wider than a computed bound |
| `RouterSearch.WidestBounds` | src/router/mod.rs:330-362 | that bound grows by a half with every round: powers of one and a half enclose it from both sides |
| `RouterSearch.MainSearchCoversIff` | src/router/mod.rs:330-364 | 32 rounds and 64 points look at every amount of the narrowed bracket if and only if the first bracket is at most the computed width, between 129 and 130 times 1.5 to the 32 |
| `RouterSearch.DenseCoversIff` | src/router/mod.rs:1027-1050 | dense points stay in the bracket, and cover it if and only if it is narrower than twice their target count |
| `RouterSearch.DenseSpacing` | src/router/mod.rs:1027-1050 | dense points ascend from the lowest amount to the highest, and every gap but the last is exactly the width over the target count, or one |
| `RouterSearch.CollectDensePoints` | src/router/mod.rs:1027-1050 | the loop collects low, every step, and high, stopping at saturation |
| `RouterSearch.SweepFindsPeak` | src/router/mod.rs:330-379 | narrowing plus dense sweep finds the maximum of the whole first bracket on every hill without ties |
| `RouterSearch.SearchSeed` | src/router/mod.rs:301-379 | one seed of the main search keeps the earliest of the most profitable ones among the plan so far, the plans of the refinement amounts and those of the dense points of the narrowed bracket; on a hill without ties below the width bound it returns the maximum of the bracket; it fails exactly when the quote of an amount it asks for fails |
| `RouterSearch.SeedBracketHoldsCenter` | src/router/mod.rs:301-314 | the bracket around a seed lies in the search range and contains the seed |
| `RouterSearch.SeedBracketIsNeighbours` | src/router/mod.rs:301-314 | a seed gets the neighbours of its place on the ladder, or of the first larger amount, or the ends of the search range |
| `RouterSearch.FastBracketHoldsCenter` | src/router/mod.rs:556-568 | the bracket of the fast search lies in the search range and contains the best amount |
| `RouterSearch.FastBracketIsHalf` | src/router/mod.rs:556-568 | the bracket of the fast search holds every amount in range that is at most half the best one away and the next unit, and no others unless that leaves only the best |
| `RouterSearch.FastSweepMissesAtWidth32` | src/router/mod.rs:570-604 | a single-peaked profile whose peak the fast search's dense pass misses |
| `RouterSearch.PlateauLosesPeak` | src/router/mod.rs:349-353 | a hill with a plateau on which the first round meets a tie and drops the peak |
| `RouterSearch.ScaleSplits` | src/router/mod.rs:955-978 | rescaled splits are the proportional shares, rounded down, with the remainder on the last split and without the zeros; they sum to the new total whenever they did not exceed the old one, in general to the larger of it and the shares before the last |
| `RouterSearch.SplitThenRescale` | src/router/mod.rs:868-868 | the splits `optimize_pair` makes of a hop, rescaled as plan verification does, always sum to the new input |
| `RouterSearch.ScaledHeadFits` | src/router/mod.rs:964-971 | the new total is conserved whenever the earlier splits did not exceed the original total |
| `RouterSearch.ShareIsProportional` | src/router/mod.rs:967-971 | a share before the last is the proportional one, rounded down, from both sides |
| `RouterSearch.SameTotalSameSplits` | src/router/mod.rs:955-978 | rescaled to the total they came from, splits are as they were |
| `QuoteCache.QuoteCache.Get` | src/router/exact_quoter.rs:532-537 | returns what the segment holds and moves a hit to the recent end |
| `QuoteCache.QuoteCache.Insert` | src/router/exact_quoter.rs:539-557 | evicts for a new segment, lists or touches the key, writes, and trims, as one step of the model |
| `QuoteCache.RunIsValid` | src/router/exact_quoter.rs:532-574 | over any run each list orders exactly the entries of its segment by last use without duplicates, and both limits hold |
| `QuoteCache.HitIsLastInserted` | src/router/exact_quoter.rs:532-557 | over any run a hit returns the value last inserted for exactly that key |
| `QuoteCache.HeldAreMostRecent` | src/router/exact_quoter.rs:532-574 | over any run a key is held if and only if it is among the most recently used keys of its segment since that was created, as many as the limit allows |
| `QuoteCache.JustInsertedSurvives` | src/router/exact_quoter.rs:539-557 | with room for one entry the key just inserted is found |
| `QuoteCache.EvictedIsLeastRecent` | src/router/exact_quoter.rs:550-556 | a full segment loses exactly its least recently used entry; otherwise nothing is lost |
| `QuoteCache.NewSegmentEvictsOldest` | src/router/exact_quoter.rs:559-566 | a new snapshot pushes out exactly the oldest one, and only when all segments are taken |
| `QuoteCache.EvictDropsOldest` | src/router/exact_quoter.rs:559-566 | whatever eviction removes is older than whatever it keeps |
| `GraphModel.Build` | src/graph/model.rs:29-87 | the snapshot holds exactly the pools' edges in order: it contains an edge if and only if that leads between two known tokens at different places of one of the pools, at the pool's rate for that direction, in both directions for a pool of two tokens; all indexes agree, anchors are exactly the anchor tokens |
| `GraphModel.AddEdgeKeepsAgreement` | src/graph/model.rs:52-72 | adding an edge to all four views keeps each edge exactly once in every index under its own endpoint, pool and pair, and every reference resolving |
| `GraphModel.ViewAfterPush` | src/graph/model.rs:55-71 | an index stays exact when the new reference is appended exactly if the edge matches its key |
| `GraphModel.NTokenEdges` | src/graph/model.rs:221-260 | the nested loops produce the edges of ordered token pairs row by row |
| `GraphModel.RowsAreAllPairs` | src/graph/model.rs:221-260 | those are the edges of all ordered pairs of distinct known tokens, and no others |
| `GraphModel.PoolGivesItsEdges` | src/graph/model.rs:120-260 | a pool gives exactly its edges, both directions of a two-token pool and all ordered pairs of the others |
| `DistanceCache.MarkReachable` | src/graph/distance_cache.rs:16-28 | the queue loop marks a vertex if and only if a path leads to it from a start |
| `DistanceCache.PredecessorsMirror` | src/graph/distance_cache.rs:30-44 | the reverse index lists u under v exactly when an edge leads from u to v |
| `DistanceCache.BackwardIsForward` | src/graph/distance_cache.rs:30-44 | walking the reverse index is walking the edges backwards |
| `DistanceCache.ClosedSetHoldsWalk` | src/graph/distance_cache.rs:16-44 | a marked set closed under edges holds every walk that starts in it |
| `DistanceCache.Recompute` | src/graph/distance_cache.rs:13-50 | a token is marked reachable from (to) an anchor if and only if a directed path from (to) some anchor exists |
| `PathSearch.VirtualOutgoing` | src/detector/path_finder.rs:936-968 | filter, group by target, cut per pair and sort, whatever order the groups come in |
| `PathSearch.PairKeepsCheapest` | src/detector/path_finder.rs:960-965 | the limit per pair keeps usable edges of the pair, each once, and leaves one out only if the limit is filled by edges that are no dearer by weight, then capacity, confidence and pool id |
| `PathSearch.OutgoingIsUsable` | src/detector/path_finder.rs:945-968 | every offered reference is a usable edge of the vertex and none is offered twice |
| `PathSearch.OutgoingIsComplete` | src/detector/path_finder.rs:945-968 | when neither limit cuts, every usable edge of the vertex is offered |
| `PathSearch.RankedByTrust` | src/detector/pruning.rs:3-34 | every edge of a vertex is ranked once, by confidence, then capacity, then weight |
| `PathSearch.BranchesAreCheapest` | src/detector/path_finder.rs:355-370 | a vertex offers its edges cheapest first, and the branch limit leaves one out only if it is filled by edges that are no dearer |
| `PathSearch.BeamKeepsBest` | src/detector/path_finder.rs:385-393 | the beam leaves out a path that goes on only if it is filled by paths that are no worse |
| `PathSearch.SearchCaches.FindTopPaths` | src/detector/path_finder.rs:326-414 | the three nested loops compute the layered search function, with cached and fresh outgoing edges agreeing |
| `PathSearch.SearchCaches.FindTopPathsCached` | src/detector/path_finder.rs:262-286 | the cache answers what a fresh search gives |
| `PathSearch.SearchCaches.VirtualOutgoingCached` | src/detector/path_finder.rs:970-993 | the cache answers what a fresh grouping gives |
| `PathSearch.TopPathsSound` | src/detector/path_finder.rs:326-414 | under any limits every result is a simple path of usable edges between the endpoints within the hop limit, with its true score and capacity; results ascend by score, then by falling capacity, then by hops; none comes twice, and there are at most `top_k` |
| `PathSearch.TopPathsComplete` | src/detector/path_finder.rs:326-414 | when branch, beam and pair limits cut nothing, a simple path is missing only if `top_k` paths are returned, each with no higher score, of equal score no narrower, and of equal capacity no longer; so a result shorter than `top_k` holds every simple path |
| `PathSearch.HopInPlainTerms` | src/detector/path_finder.rs:1088-1112 | a hop leads along a healthy edge that quotes a rate, can take something, and can take the smallest trade of its token |
| `PathSearch.ScoreIsSum` | src/detector/path_finder.rs:326-414 | while no partial sum leaves 64 bits the score of a path is the sum of its weights |
| `PathSearch.NarrowestIsLeast` | src/detector/path_finder.rs:326-414 | the capacity of a path is the least capacity on it |
| `PathSearch.RoomyLimitsNeverCut` | src/detector/path_finder.rs:355-399 | branch and pair limits of the largest out-degree and a beam of its power to the hop limit never cut a search |
| `PathSearch.ExpandFull` | src/detector/path_finder.rs:355-393 | a frontier with every simple path of k hops offers every one of k+1 hops |
| `PathSearch.MergeKeepsBest` | src/detector/path_finder.rs:395-396 | merging arrivals, sorting and truncating keeps the best of all paths found so far |
| `CycleKeys.LeastRotation` | src/detector/path_finder.rs:667-673 | the minimum over all starts by rotation comparison gives the canonical rotation |
| `CycleKeys.CompareRotation` | src/detector/path_finder.rs:706-732 | the comparison loop decides the lexicographic order of two rotations |
| `CycleKeys.CanonicalIsLeast` | src/detector/path_finder.rs:667-669 | the canonical form is a rotation that no rotation is below |
| `CycleKeys.CanonicalDecidesRotation` | src/detector/path_finder.rs:667-695 | canonical forms are equal if and only if the cycles are rotations of one another |
| `CycleKeys.TokenKeyDecidesRotation` | src/detector/path_finder.rs:653-676 | two candidates have one token key text if and only if their token cycles are rotations of one another |
| `CycleKeys.PoolKeyDecidesRotation` | src/detector/path_finder.rs:678-696 | two candidates have one pool key text if and only if their hop cycles are rotations of one another |
| `CycleKeys.AnchorKeyDecidesRotation` | src/detector/path_finder.rs:698-704 | the selection key decides anchor and hop cycle |
| `CycleKeys.TokenPathKeyInjective` | src/detector/path_finder.rs:646-651 | the unrotated token key tells the start token and the target of every hop, in order |
| `CycleKeys.JoinInjective` | src/detector/path_finder.rs:646-696 | joined texts of parts of one width tell the parts apart |
| `CycleKeys.HexIsFixedWidth` | src/detector/path_finder.rs:686-686 | hexadecimal texts of 160-bit addresses are of one width and tell all addresses apart |
| `CandidateSelection.InsertTokenPathVariant` | src/detector/path_finder.rs:563-584 | a new variant enters the sorted entry, the worst leaves when full; reports whether the entry grew |
| `CandidateSelection.VariantsAreBest` | src/detector/path_finder.rs:563-584 | however candidates come in, an entry holds the best of all of them in rank order |
| `CandidateSelection.RankedMeans` | src/detector/path_finder.rs:586-596 | candidates rank by falling potential, then rising score, then falling capacity, then hops |
| `CandidateSelection.EdgeInBps` | src/detector/path_finder.rs:606-612 | the edge of a score is its negation in ten-thousandths, rounded down, from both sides; none for a score that is not negative |
| `CandidateSelection.PotentialIsProduct` | src/detector/path_finder.rs:598-604 | the potential is capacity times edge times quality in units of 1e-8, rounded down, from both sides |
| `CandidateSelection.SelectRanked` | src/detector/path_finder.rs:507-534 | the first pass picks in rank order, one per anchor and pool cycle, within the variant limits per token cycle and per anchor; below its number it passes a candidate over only if an earlier one has its anchor and pool cycle or better-ranked picks fill its token cycle |
| `CandidateSelection.AnchorTokenKeyDecides` | src/detector/path_finder.rs:525-525 | the second key decides anchor and token cycle |
| `CandidateSelection.CountsArePlaces` | src/detector/path_finder.rs:518-530 | the counts held against the variant limits are the numbers of selected candidates with that key |
| `CandidateSelection.PicksAreMaximal` | src/detector/path_finder.rs:514-530 | below the number nothing is passed over without one of those reasons |
| `CandidateSelection.PicksAreBestOfKey` | src/detector/path_finder.rs:514-517 | of candidates with one anchor and pool cycle no other ranks above the one picked |
| `CandidateSelection.FillRotated` | src/detector/path_finder.rs:540-553 | filling keeps the picks in front, adds in rank order the best candidate of each missing anchor and pool cycle, ahead of all that stay missing, and stops at the number or when none is missing |
| `CandidateSelection.FinalizeCandidates` | src/detector/path_finder.rs:498-554 | the best candidate first, no two with one anchor and pool cycle and of each the best, at most the configured number; first the picks of the first pass, then what filling adds; below the number, with filling on, every offered anchor and pool cycle is represented |
| `CandidateSearch.ChangedPairs` | src/detector/path_finder.rs:288-324 | each pair of a changed edge exactly once, with its cheapest changed edge, in ascending order of weight, source and target |
| `CandidateSearch.PairEdgesAreHops` | src/detector/path_finder.rs:995-1027 | the pair index leads to usable edges of the pair, and to all of them unless the limit cuts |
| `CandidateSearch.LimitKeepsCheapest` | src/detector/path_finder.rs:995-1027 | the limit leaves out an edge of the pair only if it is filled by edges that are no dearer |
| `CandidateSearch.RouteScoreIsSum` | src/detector/path_finder.rs:176-192 | while no partial sum leaves 64 bits the score of a route is the sum of the weights of its edges |
| `CandidateSearch.BudgetGrows` | src/detector/path_finder.rs:734-736 | the budget is the number of candidates, and as many more for every further unit of the multiplier, up to 64 bits |
| `CandidateSearch.FormsSimpleCycle` | src/detector/path_finder.rs:1300-1316 | true exactly when the joined tokens close and repeat no other token |
| `CandidateSearch.JoinIsSound` | src/detector/path_finder.rs:166-188 | a prefix, a changed edge and a suffix that pass the checks form a cycle through the anchor with the joined score |
| `CandidateSearch.RouteFromParts` | src/detector/path_finder.rs:166-192 | every cycle through the anchor and the changed pair is what its three parts join to |
| `CandidateSearch.PartsAreFound` | src/detector/path_finder.rs:137-165 | when the limits cut nothing, all three parts of such a cycle are found |
| `CandidateSearch.SkipDropsNoCycle` | src/detector/path_finder.rs:115-120 | the reachability skip never drops a changed pair that lies on a cycle through an anchor |
| `CandidateSearch.MaterializeCandidate` | src/detector/path_finder.rs:416-480 | a candidate results exactly when all edges resolve, the changed pair is on the route and the filters allow it |
| `CandidateSearch.Collect` | src/detector/path_finder.rs:205-234 | the candidate is kept in the list, or held under its token path or kept out of there by a full number of others that rank no lower; what was held or beaten before still is; the count is that of the stored variants, and the budget is reported as used up exactly when it is |
| `CandidateSearch.FindCandidates` | src/detector/path_finder.rs:77-260 | under any limits every result is an allowed simple cycle through an anchor of 2 to `max_hops` usable hops with a changed pair and a score below the cutoff, no two share anchor and pool cycle, their number is bounded, and they are the final selection, best first, from the sound candidates that were offered; unless the search stopped early, the first of them ranks no lower than any allowed cycle the path limits do not hide; if the selection stays below its limit with filling on, every such cycle the path limits do not hide is answered for, unless the search stopped early; it stops early only when at least as many different allowed cycles exist as the selection budget; nothing is returned only when every sound route the path limits do not hide is refused |
| `CandidateSearch.AnswerMeans` | src/detector/path_finder.rs:194-234 | an answered cycle was looked at and, if allowed, some result goes the same cycle from the same anchor, through the same pools unless variants are kept per token path |
| `CandidateSearch.NoTwinsSameRoute` | src/detector/path_finder.rs:678-696 | when no two edges share source, target and pool, the key of a sound route decides its edges and its anchor |
| `CandidateSearch.AnswerWithoutTwins` | src/detector/path_finder.rs:77-260 | then every answered route that is allowed itself has a selected candidate standing for it, and a refused one is not allowed itself |
| `CandidateSearch.EverySnapshotHasASetup` | src/detector/path_finder.rs:77-127 | every valid snapshot with any limits meets the preconditions of the search |
| `CandidateSearch.ExampleIsFindable` | src/detector/path_finder.rs:77-260 | a snapshot with one cycle, and limits of one, on which the preconditions of soundness and completeness hold together |
| `Reorg.ReorgDetector.UpdateChain` | src/reorg/mod.rs:80-150 | the dispatch on height and parent, as one step of the model, whose answers `Reorg.ObservationAnswered` gives |
| `Reorg.ReorgDetector.AppendBlock` | src/reorg/mod.rs:152-170 | appends and prunes to 128 blocks, keeping both maps in step |
| `Reorg.ReorgDetector.HandleParentMismatch` | src/reorg/mod.rs:205-242 | rolls back to the common ancestor and appends, or fails and changes nothing |
| `Reorg.ReorgDetector.RollbackToBlock` | src/reorg/mod.rs:316-338 | drops the blocks above the number from chain and indexes |
| `Reorg.UpdateKeeps` | src/reorg/mod.rs:80-294 | one observation keeps the invariant; a detected reorg leaves exactly the old prefix through the common ancestor plus the new block; a failure leaves everything unchanged |
| `Reorg.ObservationAnswered` | src/reorg/mod.rs:80-294 | every observation is answered by its case, from chain and block alone: one above the tip with another parent, or below it where the chain holds another hash, fails and changes nothing exactly when no chain block has the parent's hash, and otherwise is detected with the cut after that block; at the height of the tip it replaces it; extending and jumping ahead append; anything else changes nothing |
| `Reorg.QuietMeans` | src/reorg/mod.rs:80-294 | no event means that the block extends the tip, jumps a gap, is in the chain, or has a lower number that the chain does not hold |
| `Reorg.ParentMismatchCuts` | src/reorg/mod.rs:205-242 | the update fails exactly when no chain block has the parent's hash; the event's numbers are those of the cut |
| `Reorg.RollbackToHashIsPrefix` | src/reorg/mod.rs:216-226 | rolling back to a hash keeps the prefix that ends at its block |
| `Reorg.RollbackToNumberIsPrefix` | src/reorg/mod.rs:316-338 | rolling back to a number keeps exactly the blocks up to it |
| `Reorg.AncestorIsInChain` | src/reorg/mod.rs:296-314 | the lookup through both indexes finds exactly the chain block with that hash |
| `Reorg.TipFollows` | src/reorg/mod.rs:80-294 | the tip is the observed block unless it was refused, repeated or stale |
| `Reorg.RunKeepsInvariant` | src/reorg/mod.rs:80-338 | over any run of observations and rollbacks the chain is strictly increasing, at most 128 long, and both indexes hold exactly its blocks |
| `Reorg.ChainWasObserved` | src/reorg/mod.rs:80-338 | over any run the chain holds only blocks that were observed |
| `NonceManager.ReserveIsFresh` | src/execution/nonce_manager.rs:75-80 | the nonce handed out was never known before, and the book stays valid |
| `NonceManager.SubmissionRoundTrip` | src/execution/nonce_manager.rs:75-116 | a fresh nonce is pending with what was submitted from its submission until it is included or dropped, which leaves pending entries and states as they were but for its own outcome |
| `NonceManager.NonceManager.ReconcileAll` | src/execution/nonce_manager.rs:177-229 | the two passes after a restart leave exactly the reconciled book |
| `NonceManager.NonceManager.CollectReceiptUpdates` | src/execution/nonce_manager.rs:185-206 | collects exactly the updates the receipts of unpassed pending nonces call for |
| `NonceManager.MaintenanceKeepsBook` | src/execution/nonce_manager.rs:60-73 | sync, cancel and reconcile keep pending entries equal to the submitted nonces and leave nothing reserved |
| `NonceManager.SyncCatchesUp` | src/execution/nonce_manager.rs:60-73 | syncing moves the next nonce up to the chain's when it is behind, never back, and touches nothing else |
| `NonceManager.CancelDropsSubmitted` | src/execution/nonce_manager.rs:157-165 | cancelling drops a pending nonce and leaves any other as it is |
| `NonceManager.ReconcileDecides` | src/execution/nonce_manager.rs:177-229 | what the chain has passed is included, a pending nonce it has not passed follows its receipt, every other one is as before, and none is new |
| `NonceManager.ReconcileLeavesUnseen` | src/execution/nonce_manager.rs:185-225 | after reconciling a nonce is pending exactly when it was, the chain has not passed it and its receipt was not found |
| `RiskManager.RiskManager.PreTradeCheck` | src/risk/limits.rs:41-95 | passes exactly when the position, the flash loan if there is one, the profit, the number of open transactions and the day's loss are within their limits |
| `RiskManager.SubmitThenSettle` | src/risk/limits.rs:97-120 | a failed submission leaves the ledger as it was, a settled one changes only its day, by exactly its result; the guard books nothing when nothing is open |
| `Engine.ProcessRoutedCandidate` | src/engine.rs:840-1031 | check, reserve, submit and settle by receipt, as one step on both managers; the verdict says whether it was submitted |
| `Engine.ProcessStaysQuiet` | src/engine.rs:892-1031 | after every outcome the book is valid, nothing is reserved or open, and the underflow guard does not fire |
| `Engine.NonceFollowsOutcome` | src/engine.rs:892-1031 | the nonce used is fresh; it ends dropped, included or pending, with exactly what was sent, by the outcome, and no other nonce changes its pending status |
| `Engine.ExecutesWithinLimits` | src/engine.rs:825-900 | a candidate is submitted exactly when its tokens are healthy, nothing is only simulated, and it is within all five limits |
| `Engine.ProcessBooks` | src/engine.rs:931-1031 | one candidate adds to the day it is settled on exactly its profit, cut off at 64 bits, when included and takes off its gas cost when reverted; otherwise, and on every other day, nothing changes |
| `Engine.RunBooks` | src/engine.rs:840-1031 | over every run the ledger of a day is the sum of what was settled on it |
| `Engine.ProcessBoundsLoss` | src/engine.rs:854-960 | one candidate keeps each day's loss within the limit plus the worst reverted gas cost of that day |
| `Engine.RunIsSafe` | src/engine.rs:854-1031 | over every run with a non-decreasing clock, with sync, reconcile and cancel in between: nonces are pairwise distinct, pending entries are exactly the submitted ones, none stays reserved, the open count returns to zero, and each day's loss is bounded |
| `LogScan.TopicLogsChunked` | src/discovery/event_stream.rs:329-400 | terminates whatever fails; every attempt asks for the range that the shrinking rule prescribes after the answers so far; a successful scan read ranges that partition the blocks in ascending order, so with an honest node it returns exactly the logs of the range; an error is that of the last attempt, made for the first block not yet read, after as many retries as there were attempts since the last answer, and the rule gives up there |
| `LogScan.AddressLogsChunked` | src/discovery/event_stream.rs:402-531 | the same for ranges that count as read only when every address group answered, in any order of arrival: if each group is answered honestly, the logs are up to order those of all groups for the range |
| `LogScan.FactoryLogsChunked` | src/discovery/factory_scanner.rs:1044-1141 | the same as for topics, with a chunk that grows back after success |
| `LogScan.RetriesFailed` | src/discovery/event_stream.rs:348-395 | the retries counted are exactly attempts that failed in a row |
| `LogScan.ShrinkHalves` | src/discovery/event_stream.rs:374-395 | a loop goes on exactly while it has reason to, and then with half the size, but never below its floor |
| `LogScan.GrowDoubles` | src/discovery/factory_scanner.rs:1100-1107 | after an answer the factory scan doubles its chunk up to the first size; the others keep theirs |
| `LogScan.ShrinkingScanSucceeds` | src/discovery/factory_scanner.rs:1044-1141 | each of the three scans succeeds on every node that answers all ranges of at most some size not below the minimum chunk and calls the others too large, once the retries allow the halvings from the first chunk down to that size |
| `LogScan.HalvingsIsLeast` | src/discovery/factory_scanner.rs:1109-1129 | the halvings counted there are the least number that brings the chunk down to that size |
| `LogScan.RecoveringScanSucceeds` | src/discovery/event_stream.rs:329-531 | each of the three scans succeeds on every node whose failures are of a retried kind and that never fails more attempts in a row than retries are allowed |
| `LogScan.GatherRange` | src/discovery/event_stream.rs:463-509 | the requests for one range give all logs in the order of arrival, or the first failure to arrive |
| `LogScan.CoveringScanIsComplete` | src/discovery/event_stream.rs:329-400 | with an honest node the collected logs are exactly those of the range, each block once and in order |
| `LogScan.EachBlockOnce` | src/discovery/event_stream.rs:346-372 | every block of the range lies in exactly one read, no block outside it in any |
| `LogScan.FailedGroupFails` | src/discovery/event_stream.rs:463-509 | the first group failure to arrive is the failure of the whole range |
| `LogScan.CoveringGroupsComplete` | src/discovery/event_stream.rs:438-530 | reads of all groups that cover a range hold, up to order, exactly the logs of all groups for it |
| `LogScan.FullAnswersAreHonest` | src/discovery/event_stream.rs:453-467 | whatever logs the groups have, a node that answers every request in full is honest |

## Left out

- Wire and operating concerns: RPC, WebSocket, multicall, signing, metrics, logging, configuration and environment variables; their values and answers are parameters.
- Locks, atomics and concurrent callers: every method is one sequential step.
- Floating-point rounding: reals and exact roots replace `f64`; `weight_log_q32` and the screening cutoff are given numbers.
- Quotes of V3, Curve, Balancer and Trader Joe LB pools, gas quoting and ABI decoding: approximations or glue.
- Token policy and the start-capacity prefilter of candidates, route capacity and route quality: a given predicate and given numbers.
- `SplitOptimizer.Materialize`: the per-pool extra data of a plan is not modelled; the sum of plan inputs can be below the hop's input because the loop may stop early and zero outputs are dropped.
- `SplitOptimizer.OptimizePair`: ranking and limiting the pair's edges before the split is not modelled; the ranked edges are an arbitrary list.
- `V2Split.ReturnedNearOptimal`: the unspent rest is tied to the ends of the last bracket, not to its width; no integer optimality is claimed.
- `RouterSearch.SearchSeed`: the seed ladder, the refinement points, the wide fallback and the bounded LB search are not modelled; refinement amounts are an arbitrary list.
- `NonceManager.ReserveIsFresh`: nonces, counters and profit sums are unbounded, so 64-bit and 128-bit wrap-around is not modelled; replacement pricing and stuck detection are single-branch facts.
- `Reorg.ReorgDetector.AppendBlock`: lookups by number and by hash are not modelled; block numbers are unbounded, so the tip's successor cannot overflow.
- `Reorg.RunKeepsInvariant`: no hash-linking of the whole chain is claimed, because replacing the tip at the same height does not check the new block's parent.
- `CandidateSearch.FindCandidates`: the per-call cache of pair edges is not modelled; its keys are the distinct changed pairs, so it is never read twice.
- `CandidateSearch.AnswerMeans`: two parallel edges of one pool between the same tokens have one route key, so the answer may come from the other one; `CandidateSearch.AnswerWithoutTwins` covers the graphs without such edges.
- `GraphModel.Build`: pools are handed over in the order the hash map yields them; the constant-product, Aerodrome, V3 and LB builders are one two-token builder with a given rate.
