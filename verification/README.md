# tab-generator: a verified model of the chord-voicing search

`tab-generator.py` looks for fretboard voicings ("tabs") of a major chord on a six-string
guitar tuned E, H, G, D, A, E. H is the tone a semitone below C, often written B.

The search has four steps:

1. Build the triad (root, root + 4, root + 7) from the root tone.
2. For each string, list the frets `0 .. MAX_FRETS - 1` that sound a chord tone (`MAX_FRETS = 14`).
3. Form every combination of one fret per string, in `itertools.product` order.
4. Score each combination by the sum of absolute fret differences between adjacent strings.
   Stably sort by that score and keep the first `n`.

This project models that core in Dafny. One module stands for each component:

| module | file | models |
|---|---|---|
| `Tones` | tones.dfy | `TONES`, `TONE_TO_NUMBER`, `Tone.__add__`, `Tone.__eq__` |
| `Chords` | chords.dfy | `Chord.__init__`, `Chord.__contains__` |
| `Combinations` | combinations.dfy | `itertools.product` over the per-string fret lists |
| `StableSort` | stable_sort.dfy | `list.sort(key=...)` on the (distance, tab) pairs |
| `Ranking` | ranking.dfy | `_calculate_distance`, `_calculate_best_tab` |
| `TabCalculator` | tab_calculator.dfy | `MAX_FRETS`, `GUITAR_STRINGS`, `Tab`, `generate` |

The parts without loops are functions and lemmas: tone arithmetic, the chord, the product and the sort.
The three loops of the source are methods with loop invariants:

- the nested `append` loops of `generate`;
- the accumulator loop of `_calculate_distance`;
- the comprehension in `_calculate_best_tab` that scores each combination.

Each method is proved equal to a specification function. Separate lemmas prove what the source
promises about those functions.

Modelling notes:

- A `Tone` keeps the raw symbol string, as the source does. `Tone.__eq__` compares symbols.
  `Tone.__add__` looks the symbol up in `TONE_TO_NUMBER`. So `IsTone` (the symbol is in that
  table) is exactly the condition under which `__add__` does not raise `KeyError`.
- `TONE_TO_NUMBER` is built the way the dict comprehension builds it: symbols are inserted in
  order. `NumberTableInverse` proves that, for the duplicate-free `TONES`, it is the inverse of
  indexing.
- Python's `%` with the positive divisor 12 gives the same non-negative remainder as Dafny's `%`,
  even for negative intervals.
- Integers are unbounded in both languages, so there is no overflow to model.
- A `TabCalculator` object only holds the chord built in its constructor and never changes it.
  `Generate(chordName, n)` therefore stands for `TabCalculator(chordName).generate(n)`.
  `EnumerateCandidates` and `CalculateBestTab` take the chord or the fret lists as parameters.
- `list.sort` is a library routine. The model gives its contract, not its algorithm. `SortByCost`
  is a stable insertion sort on the cost. `SortByCostIsTheStableSort` proves that any list that is
  sorted by cost and keeps each cost's pairs in input order is exactly `SortByCost`'s result. So
  Python's sort gives the same list.
- The code has no check for `n <= 0`, for an unknown root symbol or for a string with no
  candidate frets, and it never maps flat names such as "Db" to sharp names. The model follows
  the code:
  - `n = 0` returns no tabs.
  - Only canonical root symbols are accepted (`requires IsTone`).
  - An empty candidate list cannot occur, and `CandidatesNonEmpty` proves it.

## Model

| member | source | states |
|---|---|---|
| `Tones.NumberTableInverse` | tab-generator.py:19 | For a table without duplicates, the enumerate-built map has exactly the table's symbols as keys, and each symbol maps to its own position. |
| `Tones.Number` | tab-generator.py:19 | The number of a tone is a position in `[0, 12)`, and the table holds the tone's symbol at that position. |
| `Tones.SymbolNumber` | tab-generator.py:10-19 | Each of the twelve table symbols is a valid tone, and its number is its position in `TONES`. |
| `Tones.Add` | tab-generator.py:26-29 | Adding an interval always yields one of the twelve tones, and its number is `(number + interval) mod 12`. |
| `Tones.EqualIffSameNumber` | tab-generator.py:34-35 | Two tones are equal exactly when their positions in the cycle are equal. |
| `Tones.AddCongruent` | tab-generator.py:26-29 | Two additions to the same tone agree if and only if the intervals are congruent modulo 12. |
| `Tones.AddZero` | tab-generator.py:26-29 | Adding 0 gives back the same tone. |
| `Tones.AddFullCycle` | tab-generator.py:26-29 | `add(t, 12) == t`. |
| `Tones.AddAdd` | tab-generator.py:26-29 | `add(add(t, a), b) == add(t, a + b)` for all integers `a` and `b`. |
| `Tones.AddInverse` | tab-generator.py:26-29 | `add(add(t, k), 12 - k mod 12) == t`. |
| `Tones.AddReaches` | tab-generator.py:26-29 | Every tone is reached from every other tone by an interval in `[0, 12)`. |
| `Chords.NewChord` | tab-generator.py:39-41 | The chord's root is the given tone, and it has exactly three members, all valid tones. |
| `Chords.AnyEqualIff` | tab-generator.py:47 | The `any` scan succeeds exactly when some element of the sequence equals the tone. |
| `Chords.ContainsIff` | tab-generator.py:46-47 | `tone in chord` holds exactly when the tone equals one of the chord's members. |
| `Chords.ContainsByInterval` | tab-generator.py:38-47 | A tone is in the major chord on `root` exactly when it lies 0, 4 or 7 semitones above the root. |
| `Chords.RootInChord` | tab-generator.py:40-47 | The root is a member of its own chord. |
| `Chords.ChordHasThreeTones` | tab-generator.py:41 | The three members of a major chord are pairwise different tones. |
| `Combinations.ProductLength` | tab-generator.py:87 | The product has as many combinations as the product of the list sizes. |
| `Combinations.ProductMember` | tab-generator.py:87 | A sequence is a combination of the product exactly when its length is the number of lists and its `i`-th entry comes from the `i`-th list. |
| `Combinations.ProductLexAscending` | tab-generator.py:87 | When every list is strictly ascending, the product lists the combinations in strictly ascending lexicographic order (the last list varies fastest). |
| `StableSort.SortByCost` | tab-generator.py:88 | The sorted list is a permutation of the input and is ascending by cost. |
| `StableSort.SortStable` | tab-generator.py:88 | For every cost, the pairs with that cost come out in the order they went in (the sort is stable). |
| `StableSort.StableSortUnique` | tab-generator.py:88 | Two cost-sorted lists with the same per-cost subsequences are equal. |
| `StableSort.SortByCostIsTheStableSort` | tab-generator.py:88 | Any cost-sorted list that keeps each cost's pairs in input order equals `SortByCost` of the input. |
| `StableSort.SortByCostRanked` | tab-generator.py:88 | If the input tabs are in strictly ascending lexicographic order, the sorted list is ordered by cost, and equal costs stay in that lexicographic order. |
| `Ranking.DistanceZeroIff` | tab-generator.py:91-99 | The movement cost is 0 exactly when all frets are equal. |
| `Ranking.DistanceSpan` | tab-generator.py:91-99 | The movement cost is at least the distance between the first and the last fret. |
| `Ranking.CalculateDistance` | tab-generator.py:91-99 | The loop over `tab[1:]` returns the sum of absolute differences of adjacent frets. It requires a non-empty tab. |
| `Ranking.RankedConsistent` | tab-generator.py:87-88 | The sorted list has one pair per combination, each pair's cost is its own tab's distance, and each tab is a combination. |
| `Ranking.RankedComplete` | tab-generator.py:87-88 | Every combination appears in the sorted list. |
| `Ranking.BestTabsLength` | tab-generator.py:89 | The result has `min(n, product of the list sizes)` tabs. |
| `Ranking.BestTabsDrawn` | tab-generator.py:87-89 | Every returned tab has one fret per list, and its `i`-th fret comes from the `i`-th list. |
| `Ranking.BestTabsSorted` | tab-generator.py:87-89 | The returned tabs are non-decreasing in distance. |
| `Ranking.BestTabsOptimal` | tab-generator.py:87-89 | No combination left out costs less than any returned tab. |
| `Ranking.BestTabsStable` | tab-generator.py:87-89 | For every cost, the returned tabs of that cost are the first tabs of that cost in product order. |
| `Ranking.BestTabsRanked` | tab-generator.py:87-89 | For strictly ascending fret lists, the result is ordered by distance, and ties are in strictly ascending lexicographic order. |
| `Ranking.BestTabsCutOff` | tab-generator.py:87-89 | For strictly ascending fret lists, an excluded combination that costs as much as a returned tab is lexicographically greater than it: the slice `[:n]` keeps the earliest tabs of a cost in product order. |
| `Ranking.CalculateBestTab` | tab-generator.py:86-89 | The method returns exactly the stably ranked first `n` combinations. It returns `min(n, total)` of them, each drawn from the lists, sorted by distance, and no left-out combination is cheaper. |
| `TabCalculator.OpenTone` | tab-generator.py:9 | The six open strings are valid tones at positions 4, 11, 7, 2, 9 and 4. |
| `TabCalculator.ChordFretsExact` | tab-generator.py:79-81 | One string's fret list is strictly ascending and contains exactly the frets below the bound whose tone is in the chord. |
| `TabCalculator.VoicingIffDrawn` | tab-generator.py:76-81 | A combination of the candidate lists is exactly a voicing: six frets in `[0, MAX_FRETS)`, each sounding a chord tone on its string. |
| `TabCalculator.CandidatesAscending` | tab-generator.py:76-81 | Every string's candidate list is strictly ascending. |
| `TabCalculator.RootFret` | tab-generator.py:79-81 | On any string, some fret in `[0, 12)` is in the string's fret list and sounds the chord's root, so the list is not empty. |
| `TabCalculator.CandidatesNonEmpty` | tab-generator.py:76-81 | No string of a major chord is left without candidate frets. |
| `TabCalculator.FretInterval` | tab-generator.py:79-80 | Fret `f` of a string tuned to `open` sounds a chord tone exactly when `open + f` lies 0, 4 or 7 semitones above the root. |
| `TabCalculator.ChordFretsByInterval` | tab-generator.py:78-81 | One string's fret list is exactly the strictly ascending list of frets below the bound that lie 0, 4 or 7 semitones above the root, counted from the open string. |
| `TabCalculator.CMajorCandidates` | tab-generator.py:76-81 | For C major, the candidate lists of the strings E, H, G, D, A, E are [0, 3, 8, 12], [1, 5, 8, 13], [0, 5, 9, 12], [2, 5, 10], [3, 7, 10] and [0, 3, 8, 12]. |
| `TabCalculator.EnumerateCandidates` | tab-generator.py:76-81 | The nested loops build six lists. Each list is strictly ascending and holds exactly the frets in `[0, MAX_FRETS)` whose tone is in the chord. |
| `TabCalculator.BestVoicings` | tab-generator.py:72-89 | For a major chord, the ranked tabs are `min(n, number of combinations)` voicings, at least one when `n >= 1`, ordered by distance with ties in lexicographic order. An excluded voicing is no cheaper than any returned tab, and at equal cost it is lexicographically greater. |
| `TabCalculator.Generate` | tab-generator.py:72-84 | Returns exactly the tabs `_calculate_best_tab` ranks first, `min(n, number of combinations)` of them, and at least one when `n >= 1`. Every tab is a voicing of the chord. Tabs are ordered by distance, with ties in lexicographic order. A voicing left out is no cheaper than a returned one, and at equal cost it comes after it in product order, so the cut at `n` keeps the first tabs of that cost. |

## Left out

- `Tab.print` (tab-generator.py:54-68), the `__main__` driver (tab-generator.py:102-109) and the `__repr__` methods: terminal output only.
- `OTHER_TONES` (tab-generator.py:11-18): defined but never consulted. An alias such as "Db" raises `KeyError` in `Tone.__add__`. The model requires a canonical root instead of modelling the exception.
- The unused imports `inf` and `Set`.
- The default argument `n = 1` of `generate` (tab-generator.py:75): `generate()` is `Generate(chordName, 1)`.
- A negative `n`: Python's slice `[:n]` would then drop tabs from the end. That is not a designed behaviour, so `n` is a `nat`.
- `StableSort.SortByCost`: the sort is modelled as a pure function on a sequence. The in-place update of the Python list and Timsort's steps are not modelled. `StableSort.SortByCostIsTheStableSort` shows that the result is the same.
- `_calculate_distance` on an empty tab raises `IndexError`. This cannot happen from `generate`, where every tab has six frets, so `Ranking.CalculateDistance` requires a non-empty tab.
