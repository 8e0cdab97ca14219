# Military units, algebra and a camp puzzle: a Dafny model

The page in `src/App.js` teaches grouping with a six-level military
hierarchy: 排 (platoon, 10 people), 连, 团, 旅, 师 and 军, where each level
is three units of the level below. Under its rendering code it holds five
small pieces of logic. This project models each of them in Dafny and proves
what the page promises about them.

- **The hierarchy** (module `Hierarchy`):
  - the `UNITS` table and its name index `unitIndex`;
  - the head count `computePeopleByIndex(idx) = 10 · 3^idx`;
  - the equation text of `FormulaLine`. Cut at its `=` signs, the line is proved to hold four sides: "1 <unit>", "3 <unit below>", the "× 3" chain times 10, and the total in 人. One unit is three of the level below, and the chain, read back as a product, equals the printed total.
- **The expanding tree** (module `Expansion`):
  - the `openDepth` state is a class `Tree`, starting at depth 1;
  - a click on a node is one update rule, and the recursive `Node` rendering fixes which levels are on screen;
  - every depth in 1..6 is proved reachable by clicks on drawn nodes, and no run of clicks leaves that range.
- **The algebra panel** (module `Algebra`):
  - the expression evaluator is a method with a loop, like the `for` loop of the source. It splits at `+`, trims, drops empty pieces and sums the first match of `/(\d+)\s*(排|连|团|旅|师|军)/` in each piece, times the unit's scale `scaleX`;
  - the regular expression is modelled as a leftmost search with greedy runs and is proved to agree with the pattern read as a set of texts;
  - the sum is proved additive over `+`. Malformed pieces, text before a number and a second match in the same piece are proved to be ignored;
  - `Boxes` draws one marker per platoon, `count` of them up to 50, and its overflow hint shows exactly above 50.
- **The camp puzzle** (module `Camp`):
  - three counters and a target, held by a class `CampGame`;
  - `update`, which clamps at zero, and the reset button;
  - the head count and the difference from the target;
  - the decision table of `suggest`, with its exact messages. Following its hints is proved never to overshoot when the target is a whole number of platoons. From a reset camp, the hints reach any such non-negative target exactly.
- **JavaScript string built-ins** (module `Text`): `split` on one character, `join`, `trim` over the ECMAScript whitespace set, `parseInt` on a digit string, and the decimal text of a number. `split` and `trim` are each given a contract that determines their result: joining the pieces of `split` gives the text back, and the trimmed text is the only infix with only whitespace around it and none at its ends. `parseInt` is modelled by its digit-by-digit definition, and the decimal text of a number is proved to be read back by it.

The code and the comment at `src/App.js:238` disagree on rendering:

- The comment says depth 1 shows only 排 and depth 2 shows 排 and 连.
- In the code, the node at level `idx` draws its child whenever `idx < openDepth` (`src/App.js:52-54`). So depth `d` shows `min(d + 1, 6)` levels, and the base level is drawn open with 连 below it at depth 1.

The model follows the code: `Expansion.RenderedLevels` states that level `k` is on screen exactly when `k <= depth`.

## Model

| member | source | states |
|---|---|---|
| `Text.DecimalValue` | src/App.js:100 | `parseInt` of n digits is below 10^n |
| `Text.LeadingZeroIgnored` | src/App.js:100 | a leading zero does not change what `parseInt` reads |
| `Text.JoinEnds` | src/App.js:26 | `join` opens with the first part and closes with the last |
| `Text.DecimalString` | src/App.js:29 | the number text has only digits, no leading zero, and `parseInt` reads it back as the same number |
| `Text.Split` | src/App.js:91-92 | `split('+')` gives at least one piece, no piece holds the separator, and joining the pieces with it gives the text back |
| `Text.SplitConcat` | src/App.js:91-92 | a separator between two texts separates their pieces: the pieces of `a + sep + b` are those of `a` followed by those of `b` |
| `Text.Trim` | src/App.js:93 | `trim` keeps an infix with only whitespace before and after it; the infix neither starts nor ends with whitespace and is empty exactly when the text is all whitespace |
| `Text.TrimUnique` | src/App.js:93 | the trimmed text is the only infix that has only whitespace around it and no whitespace at its ends |
| `Text.TrimLeadingSpace` | src/App.js:93 | a blank in front of a text does not change its trimmed text |
| `Text.TrimTrailingSpace` | src/App.js:93 | a blank after a text does not change its trimmed text |
| `Text.TrimIsIdempotent` | src/App.js:93 | trimming a trimmed text changes nothing |
| `Text.TrimKeepsTrimmed` | src/App.js:93 | `trim` leaves a text unchanged when it neither starts nor ends with whitespace |
| `Text.TrimAll` | src/App.js:93 | `map(s => s.trim())` keeps the number of pieces and trims each piece in place |
| `Text.DropEmpty` | src/App.js:94 | `filter(Boolean)` keeps exactly the non-empty pieces and never adds one |
| `Text.DropEmptyConcat` | src/App.js:94 | filtering distributes over concatenation, so order is kept |
| `Hierarchy.PeopleByIndex` | src/App.js:16-19 | one unit of any level holds at least 10 people, always a whole number of platoons |
| `Hierarchy.PeopleNextLevel` | src/App.js:4-19 | one unit of a level holds three times the people of one unit of the level below |
| `Hierarchy.PeopleEndpoints` | src/App.js:16-19 | 10 people at 排 (idx 0), 2430 at 军 (idx 5) |
| `Hierarchy.PeopleStrictlyIncreasing` | src/App.js:16-19 | the head count strictly increases with the level |
| `Hierarchy.TableAgreesWithClosedForm` | src/App.js:5-19 | the head count the `UNITS` table defines (base 10, then times each factor) equals `computePeopleByIndex` on every level |
| `Hierarchy.UnitIndex` | src/App.js:14 | `unitIndex[name]` is a level carrying that name; when it is missing, no level carries the name |
| `Hierarchy.UnitIndexOfName` | src/App.js:14 | the names are distinct, so `unitIndex` maps each level's name back to that level |
| `Hierarchy.FormulaText` | src/App.js:21-31 | every formula line opens with "1 " and the level's name; the fixed base line states what the generic form would, 10 people |
| `Hierarchy.FormulaLineIsTrue` | src/App.js:20-31 | above 排, the line cut at `=` has exactly four sides: "1 <unit>", "3 <unit below>", the ×3 chain times 10, and the total followed by 人; one unit holds three of the level below, and the chain read as a product is the printed total |
| `Hierarchy.Times` | src/App.js:26 | for idx > 0 the chain cut at `×` and trimmed is exactly idx copies of "3" |
| `Hierarchy.ChainReadsAsTotal` | src/App.js:23-29 | the printed product `3 × … × 3 × 10` equals the printed total `computePeopleByIndex(idx)` |
| `Expansion.NextDepth` | src/App.js:44 | after a click on level idx the depth lies in [1, 6], keeps the clicked node open (at least idx + 1) and is at most idx + 2 |
| `Expansion.Rendered` | src/App.js:34-56 | a node draws consecutive levels starting with its own: only itself when closed (depth ≤ idx), otherwise every level from idx up to depth, but never past 军 |
| `Expansion.RenderedLevels` | src/App.js:36-56 | from the root, level k is drawn exactly when k ≤ depth |
| `Expansion.ShowsSummary` | src/App.js:57-59 | the grand-total line shows exactly when all six levels are open |
| `Expansion.ClickEffect` | src/App.js:40-45 | a click above the deepest open node collapses to it; a click on the deepest open node or the closed one below it opens one more level; a click on 军 with all levels open changes nothing; the clicked node stays drawn |
| `Expansion.ReplayStaysInRange` | src/App.js:44 | no run of clicks takes a depth in [1, 6] out of [1, 6] |
| `Expansion.ExpandPathReaches` | src/App.js:44 | clicking the deepest open node repeatedly, always on a drawn node, reaches every depth above the current one |
| `Expansion.ReachableDepths` | src/App.js:239 | from the initial depth 1 the reachable depths are exactly 1..6 |
| `Expansion.Tree.constructor` | src/App.js:239 | the tree starts at depth 1 |
| `Expansion.Tree.Click` | src/App.js:40-45 | a click sets the depth by the click rule and keeps it in [1, 6] |
| `Algebra.ScaleOf` | src/App.js:81-88 | the scale `scaleX` gives a unit, 0 when it has none (the fallback at src/App.js:102), is positive exactly for the names in `UNITS`, and then 3 to the power of that name's level |
| `Algebra.ScaleIsPowerOfLevel` | src/App.js:81-88 | each unit of `UNITS` has a scale, and it is 3^level, its head count divided by 10 |
| `Algebra.PatternUnitsAreTableUnits` | src/App.js:96 | the pattern's units, the keys of `scaleX` and the names of `UNITS` coincide, so the fallback to 0 never applies to a match |
| `Algebra.DigitsEnd` | src/App.js:96 | `\d+` is taken greedily: the run from i holds only digits and stops at a non-digit or the end |
| `Algebra.SpacesEnd` | src/App.js:96 | `\s*` is taken greedily: the run holds only whitespace and stops at a non-space or the end |
| `Algebra.MatchAtIsPatternMatch` | src/App.js:96-98 | the greedy matcher finds a match at a position exactly when the pattern matches there, and then the unique one |
| `Algebra.Search` | src/App.js:98 | the position found has a match and no earlier one does; finding none means no position matches |
| `Algebra.FirstMatch` | src/App.js:98 | when `match` gives `null` no position of the piece matches; a match's unit is one of the pattern's six names |
| `Algebra.FirstMatchFindsAny` | src/App.js:98 | `match` gives a match exactly when some position of the piece matches |
| `Algebra.FirstMatchIsLeftmost` | src/App.js:98 | `match` reports the match at the leftmost position that has one |
| `Algebra.Contribution` | src/App.js:98-102 | a piece without a match adds 0; a piece with one adds its count times the scale of its unit, which `scaleX` always has |
| `Algebra.Terms` | src/App.js:91-94 | every piece kept is non-empty, holds no `+` and is already trimmed |
| `Algebra.Evaluate` | src/App.js:90-105 | the loop's `sumX` is the sum over the pieces of each first match's count times scale, it is never negative, and `people` is ten times it |
| `Algebra.SumXConcat` | src/App.js:97-103 | the accumulated sum over two runs of pieces is the sum of the two |
| `Algebra.ExprSumXAdditive` | src/App.js:90-105 | the value of `a + b` is the value of `a` plus the value of `b` |
| `Algebra.NoDigitsNoContribution` | src/App.js:98-99 | a piece without digits has no match and adds nothing |
| `Algebra.LeadingTextIgnored` | src/App.js:96-98 | text without digits before a piece does not change its match |
| `Algebra.TrailingTextIgnored` | src/App.js:96-98 | once a piece has a match, text after it does not change that match |
| `Algebra.SinglePiece` | src/App.js:91-103 | an expression without `+` is worth what its trimmed text contributes, including nothing when it is blank |
| `Algebra.MatchFromStart` | src/App.js:98-102 | a piece that starts with a match reports that match and contributes its count times its scale |
| `Algebra.OnePiece` | src/App.js:91-103 | a trimmed piece with or without a blank on either side is worth its own contribution |
| `Algebra.TwoPieces` | src/App.js:91-103 | two pieces written "a + b" add up |
| `Algebra.SimpleTerm` | src/App.js:98-102 | "d u" with one digit and a unit matches as count d of unit u and contributes d times the unit's scale |
| `Algebra.TwoTerms` | src/App.js:90-105 | every expression of the form "d u + d u" is worth the sum of its two terms |
| `Algebra.MalformedPieceSkipped` | src/App.js:97-99 | a piece without digits next to a term is skipped without error and the term still counts |
| `Algebra.LeadingJunkSkipped` | src/App.js:96-98 | the pattern is not anchored: digit-free text before a term is skipped |
| `Algebra.SecondMatchIgnored` | src/App.js:98 | only the first match of a piece counts; whatever follows it is ignored |
| `Algebra.ExampleTwoRegimentsOneCompany` | src/App.js:80 | the default expression "2 团 + 1 连" is 21 X, so 210 people |
| `Algebra.ExampleMalformedPiece` | src/App.js:97-99 | "abc + 3 连" is 9 X |
| `Algebra.ExampleLeadingJunk` | src/App.js:96-98 | "x 3 连" is 9 X |
| `Algebra.ExampleSecondMatchIgnored` | src/App.js:98 | "2 团 3 连" is 18 X, not 21 |
| `Algebra.Boxes` | src/App.js:64-77 | markers keyed 0, 1, …: exactly `count` of them for a count in 0..50, exactly 50 above that, none for a negative count; the overflow hint shows exactly when count > 50, which is exactly when some platoons are not drawn |
| `Camp.NameOf` | src/App.js:138 | each counter's key is a name in `UNITS` at the counter's level |
| `Camp.Weight` | src/App.js:139 | the weights 90, 30 and 10 of `people` are the head counts of 团, 连 and 排 |
| `Camp.Bump` | src/App.js:142-144 | `update` sets only the named counter, to `max(0, old + delta)`; the other two are kept; counters never become negative |
| `Camp.People` | src/App.js:139 | the head count is a whole number of platoons, and not negative for non-negative counters |
| `Camp.Diff` | src/App.js:140 | for a whole-platoon target the difference is a whole number of platoons too |
| `Camp.PeopleOfBump` | src/App.js:139-144 | an update moves the head count by the unit's weight times the change of its counter |
| `Camp.AddThenRemove` | src/App.js:142-144 | `+` then `-` on a counter restores the camp |
| `Camp.RemoveThenAdd` | src/App.js:142-144 | `-` then `+` restores the camp exactly when that counter was not zero |
| `Camp.Suggest` | src/App.js:146-158 | the approval exactly on target; reduce advice exactly when over and add advice exactly when under; removing 团 or 连 is advised only when the camp has one and the surplus is at least its weight, removing 排 only when it has one; add 团, 连 or 排 exactly by the shortfall thresholds 90 and 30 |
| `Camp.SurplusPriority` | src/App.js:148-152 | over the target, the removals are tried in the fixed order 团, 连, 排, and "reduce everything" is the fallback |
| `Camp.Message` | src/App.js:147-157 | only the approval starts with ✅; the text starts with 太多了 exactly for the advice to reduce and with 不够 exactly for the advice to add |
| `Camp.MessagesDistinct` | src/App.js:146-158 | different advice has different text |
| `Camp.FollowNeverOvershoots` | src/App.js:146-158 | for a whole-platoon target, doing what the hint says brings the head count strictly closer to the target and never past it |
| `Camp.ReduceAllMeansEveryRemovalUndershoots` | src/App.js:148-152 | "reduce everything" is said only when the camp has no 排 and removing any 团 or 连 it has leaves it short |
| `Camp.Settle` | src/App.js:146-158 | for a target that is a whole number of platoons, following the hints always ends, at a camp the hint approves or can only tell to reduce everything |
| `Camp.SettleFromShortfall` | src/App.js:155-158 | for a target that is a whole number of platoons, from a camp at or below the target, following the hints ends exactly on the target |
| `Camp.HintsCycleOffPlatoons` | src/App.js:150-157 | less than one 排 short of a target that is not a whole number of platoons, the hint asks for one more 排, then for one 排 less, back to the start |
| `Camp.ExampleCycle` | src/App.js:150-157 | target 15 from a single 排 loops between adding and removing 排 |
| `Camp.HintsReachTarget` | src/App.js:137-158 | from the reset camp, the hints reach any non-negative whole-platoon target exactly |
| `Camp.CampGame.constructor` | src/App.js:137-138 | the puzzle starts with target 1000 and all counters at zero |
| `Camp.CampGame.Update` | src/App.js:142-144 | a `+` or `-` button applies `update` to the counters and keeps the target |
| `Camp.CampGame.Reset` | src/App.js:209 | the reset button zeroes the counters and keeps the target |
| `Camp.CampGame.SetTarget` | src/App.js:171 | the target input replaces the target and keeps the counters, which stay non-negative |
| `Camp.CampGame.Hint` | src/App.js:146-158 | the hint shown is `suggest` for the current state; it is the approval exactly when the head count equals the target |

## Left out

- Rendering, CSS class selection (the hint colour at `src/App.js:207` and the node classes), `stopPropagation`, and React's `useState`/`useMemo` as mechanisms. Only the state values and their update rules are modelled.
- The node label `10 人` / `×3` (`src/App.js:49`) and the constant equations of the algebra panel and the summary panel (`src/App.js:111-116`, `src/App.js:216-235`). They are fixed text with no logic.
- The text of the grand-total line (`src/App.js:58`), including its `toLocaleString` formatting. Only whether the line shows is modelled (`Expansion.ShowsSummary`); locale formatting is library behaviour.
- `Math.pow` is floating point, and JavaScript numbers lose precision above 2^53. The model uses exact integers, which agree on the page's levels (idx ≤ 5). Counts typed into the algebra panel that are too large for a double are not modelled.
- `parseInt(e.target.value || '0', 10)` can yield `NaN` (`src/App.js:171`), and the `min={10}` of the input is only a browser hint. The target is modelled as any integer, and `NaN` is not modelled.
- `Camp.Follow` reads "some 排" as one 排. The hints' own text does not fix an amount.
- `Camp.FollowNeverOvershoots` assumes a target that is a multiple of 10. For other targets, adding one 排 to a shortfall below 10, or removing one from a surplus below 10, crosses the target. That is the page's behaviour, not a defect of the model.
- `Camp.Settle` is defined only for a target that is a multiple of 10. For other targets the hints can cycle forever (`Camp.HintsCycleOffPlatoons`), so there is no end state to define.
- `Camp.SettleFromShortfall` likewise assumes a target that is a multiple of 10. For target 15 from one 排, the hints alternate between adding and removing a 排 and never reach the target.
- `\d` is read as the ASCII digits and the unit names as single characters. Text is a sequence of Unicode code points, with no normalisation.
