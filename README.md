# Ranking generated armour sets

The loadout builder proposes armour sets. Each candidate set has a value for every armour
stat. The model assumes the six Destiny 2 armour stats, in the order Mobility, Resilience,
Recovery, Discipline, Intellect, Strength; no sum depends on that order. The user picks
which stats they care about (`enabledStats`) and a priority order of stat hashes (`statOrder`).
`sortGeneratedSets` returns a sorted copy of the candidates:

1. sets with a higher total tier over the enabled stats come first (`sumEnabledStats`);
2. ties are broken by the tier of each enabled stat, in `statOrder` order, higher first.

This project models that ranking code in Dafny and proves what it achieves:

- the result is a permutation of the input;
- the input array is left unchanged;
- the order is exactly the lexicographic order on (enabled-stat sum, tiers of the enabled stats in `statOrder` order), largest first;
- disabled stats never influence a comparison;
- the comparator list has one entry for the total plus one per enabled `statOrder` entry.

Files:

- `armor_types.dfy` (module `ArmorTypes`): the stat types, `statKeys`, the stat record and
  the armour set. `loadout-builder/types.ts`, which declares them, is not part of this model,
  so the six stat names and their order are an assumption. Only the shape the ranking code
  relies on is stated.
- `generated_sets.dfy` (module `GeneratedSets`): the four functions of
  `generated-sets/utils.ts`, and the library helpers they call, given their usual meaning:
  - `compareBy` compares two keys in ascending order;
  - `chainComparator` returns the first non-zero comparison, or 0 when all tie;
  - `.sort(cmp)` sorts in place by `cmp`.

  It also holds the lemmas.

Modelling choices:

- `statTier` (from `loadout-builder/utils.ts`) is not part of this model. Every function takes
  it as a parameter `tier: int -> int`. So every property holds for any tier function,
  including one that ticks over every 10 points.
- The `statHashToType` table is not part of this model either. It is a parameter
  `hashToType: map<int, StatType>`. A hash missing from the map has no stat type, so
  `enabledStats.has(...)` is false for it.
- Each `compareBy` closure becomes a value of the datatype `Comparator`:
  - `ByEnabledTotal` stands for `s => -sumEnabledStats(s.stats, enabledStats)`;
  - `ByStatTier(t)` stands for `s => -statTier(s.stats[t])`.

  `ChainComparator` turns a list of them back into the comparator function handed to the sort.
- `sets?` is a nullable array (`array?<ArmorSet>`). A missing input gives `null`. Otherwise
  `Array.from` becomes a fresh array initialised from the input, and `.sort` becomes an
  insertion sort of that copy, in place.

## Model

| member | source | states |
|---|---|---|
| `GeneratedSets.SumEnabledOverNoneEnabled` | src/app/loadout-builder/generated-sets/utils.ts:42-46 | over any key list, the enabled-stat sum is 0 when no stat is enabled |
| `GeneratedSets.SumEnabledStatsNoneEnabled` | src/app/loadout-builder/generated-sets/utils.ts:42-46 | `sumEnabledStats` is 0 for every set when `enabledStats` is empty |
| `GeneratedSets.SumEnabledOverAgrees` | src/app/loadout-builder/generated-sets/utils.ts:43-45 | the enabled-stat sum reads only the enabled stats: records that agree on them have equal sums |
| `GeneratedSets.SumEnabledOverAllEnabled` | src/app/loadout-builder/generated-sets/utils.ts:43-45 | when every listed key is enabled, the sum equals the plain tier sum of the listed stat values |
| `GeneratedSets.SumEnabledStatsAllIsTotal` | src/app/loadout-builder/generated-sets/utils.ts:38-46 | with every stat enabled, `sumEnabledStats` equals `calculateTotalTier` |
| `GeneratedSets.SumOfTiersPermutation` | src/app/loadout-builder/generated-sets/utils.ts:39 | the tier sum of a list of values does not depend on their order |
| `GeneratedSets.CalculateTotalTierAnyOrder` | src/app/loadout-builder/generated-sets/utils.ts:38-40 | `calculateTotalTier` is the same whichever order `Object.values` lists the stats in |
| `GeneratedSets.CompareBy` | src/app/loadout-builder/generated-sets/utils.ts:9 | `compareBy` is negative exactly when the first key is smaller and positive exactly when it is larger |
| `GeneratedSets.GetComparatorsForMatchedSetSorting` | src/app/loadout-builder/generated-sets/utils.ts:6-18 | the loop builds the enabled-total comparator followed by one tier comparator per enabled `statOrder` entry, in order |
| `GeneratedSets.ComparatorCount` | src/app/loadout-builder/generated-sets/utils.ts:7-17 | the list has 1 + (number of `statOrder` positions whose hash maps to an enabled type) entries, and the first compares enabled totals |
| `GeneratedSets.EnabledOrderMembers` | src/app/loadout-builder/generated-sets/utils.ts:11-15 | a stat type gets a comparator iff some `statOrder` hash maps to it and it is enabled |
| `GeneratedSets.EnabledOrderAppend` | src/app/loadout-builder/generated-sets/utils.ts:11-15 | the comparators of concatenated stat orders are the concatenation of their comparators |
| `GeneratedSets.IgnoredHashAddsNothing` | src/app/loadout-builder/generated-sets/utils.ts:12 | an unmapped or disabled hash adds no comparator, wherever it stands in `statOrder` |
| `GeneratedSets.StatChainIsLex` | src/app/loadout-builder/generated-sets/utils.ts:11-15 | a chain of tier comparators orders sets by their tier vectors, lexicographically and largest first, and ties exactly on equal vectors |
| `GeneratedSets.RankingOrder` | src/app/loadout-builder/generated-sets/utils.ts:9-15 | the chained comparator puts `a` no later than `b` iff `a` has a larger enabled sum, or an equal sum and lexicographically no smaller enabled tiers in `statOrder` order; it ties iff both are equal |
| `GeneratedSets.ChainCompareAntisymmetric` | src/app/loadout-builder/generated-sets/utils.ts:30 | swapping the two sets negates the chained comparison |
| `GeneratedSets.ChainCompareTransitive` | src/app/loadout-builder/generated-sets/utils.ts:30 | "no later than" under the chained comparator is transitive |
| `GeneratedSets.ChainComparatorAntisymmetric` | src/app/loadout-builder/generated-sets/utils.ts:30 | the comparator handed to `.sort` is consistent: reversing its arguments negates its result |
| `GeneratedSets.ChainCompareIgnoresDisabled` | src/app/loadout-builder/generated-sets/utils.ts:12-13 | a chain whose tier comparators are all for enabled stats gives the same result for sets that agree on the enabled stats |
| `GeneratedSets.DisabledStatsDoNotAffectRanking` | src/app/loadout-builder/generated-sets/utils.ts:6-17 | changing stats outside `enabledStats` never changes how two sets compare, in either argument position |
| `GeneratedSets.SortedPairwise` | src/app/loadout-builder/generated-sets/utils.ts:29-30 | in a sequence sorted by the chained comparator, every set comes no later than every set after it |
| `GeneratedSets.RankedSetsDescend` | src/app/loadout-builder/generated-sets/utils.ts:29-30 | in a sorted result the enabled-stat sum never increases, and sets with equal sums have lexicographically non-increasing enabled tiers in `statOrder` order |
| `GeneratedSets.InsertAt` | src/app/loadout-builder/generated-sets/utils.ts:29 | one insertion pass extends the sorted prefix by one element, permutes the array, and leaves every set after position `i` where it was |
| `GeneratedSets.InsertionSort` | src/app/loadout-builder/generated-sets/utils.ts:29 | `.sort(cmp)` leaves the array sorted by `cmp` and a permutation of its old contents |
| `GeneratedSets.SortGeneratedSets` | src/app/loadout-builder/generated-sets/utils.ts:20-32 | no sets gives no result; otherwise the result is a new array that is a permutation of the input and sorted by the chained comparator, and the input is unchanged |

## Left out

- `src/app/item-review/destiny-tracker.service.ts`: a facade that reads global settings and the active platform. It forwards asynchronous calls to review fetchers, caches, submitters and reporters that are not part of this model. It has no logic of its own to state.
- `src/app/item-review/actions.ts`: Redux action creators declared through a library. They have no behaviour.
- `statTier`, from `loadout-builder/utils.ts`, is not part of this model. It is a parameter, so nothing is assumed about it.
- `loadout-builder/types.ts` is not part of this model. The `statHashToType` table it declares is a parameter. `statKeys` is modelled as an assumed list of the six stat types in a fixed order; every sum over them is order-independent.
- `compareBy`, `chainComparator`, lodash `sum`/`sumBy` and `Array.prototype.sort` are library code. They are modelled by their meaning, not their implementation. The sort is an insertion sort, and the order it leaves fully tied sets in is not specified, just as the source does not rely on the engine's sort stability.
- JavaScript numbers are modelled as unbounded integers. Fractional stat values, `NaN` and `undefined` stats do not arise in the model.
- `Object.values(stats)` is taken in `statKeys` order. `CalculateTotalTierAnyOrder` shows the order does not matter.
- `ArmorSet` fields other than `stats` are reduced to one `armor` list of item ids. It is carried along and never compared.
