# Wildfire codesign tradespace: a Dafny model

This project models the two Python scripts around the wildfire co-design problem. The
problem is solved by an external MCDP solver, which is not modelled.

- **`scripts/gen_catalogues.py`** writes the three YAML catalogues the solver reads. These
  are aircraft, ground crews and retardant supply.
  - Each generator draws rows from fixed bins with bounded noise and clamps the derived
    cost (and, for aircraft, the load) from below.
  - It then appends two anchor rows and formats one `model{k}` block per row under a
    header that declares the units.
  - `write_yaml` strips the text and adds a single newline.
- **`scripts/plot_wildfire_pareto.py`** reads the solver's antichain of minimal
  `(cost, load, time)` resource tuples and does the following:
  - sorts the tuples and splits them into columns;
  - optionally keeps only the points within a response-time bound;
  - picks which points to label;
  - when asked, computes the 2D Pareto frontier in (load, cost) with `pareto_2d_min` and
    builds the polygon that `shade_dominated_region` fills.

Modules:

- `Wrappers`: Option/Result, `Min` and `Max`.
- `StableSort`: Python's stable `sort(key=...)` on tuple keys, proved sorted, stable and a
  permutation.
- `ParetoFront`, `ParetoFacts`: the sweep of `pareto_2d_min` and what its result is.
- `AntichainColumns`: `load_antichain` after the file is read, and the time slice.
- `LabelSelection`: the choice of labelled points.
- `DominatedRegion`: the shading polygon.
- `TradespacePlot`: `main` up to drawing.
- `DecimalText`: `str()` of a non-negative integer.
- `CatalogueText`: the catalogue YAML layout and `write_yaml`'s normalisation.
- `GenCatalogues`: the three generators.

Numbers in the plotting script are `real`s. The only thing done with them is comparison
(and one scaling by 1.05). The random draws of the generators are inputs to the model: a
draw records the bin values `random.choice` returned and the integers `random.randint`
returned.

## Model

| member | source | states |
|---|---|---|
| StableSort.SortBySorted | scripts/plot_wildfire_pareto.py:46 | `list.sort(key=...)` returns its elements in nondecreasing key order (lexicographic on tuples) |
| StableSort.SortByStable | scripts/plot_wildfire_pareto.py:46 | the sort is stable: elements with equal keys keep their input order |
| StableSort.SortBy | scripts/plot_wildfire_pareto.py:46 | the sorted list is a permutation of the input (same length, same multiset) |
| StableSort.SortByOfSorted | scripts/plot_wildfire_pareto.py:88 | sorting a list already in key order leaves it unchanged |
| StableSort.InsertSorted | scripts/plot_wildfire_pareto.py:46 | inserting after all not-greater keys keeps a list sorted (step of the sort) |
| StableSort.InsertStable | scripts/plot_wildfire_pareto.py:46 | inserting an element later than all present keeps equal keys in input order (step of the sort) |
| StableSort.MapPermutation | scripts/plot_wildfire_pareto.py:48-49 | projecting two permutations of each other element-wise gives permutations of each other |
| ParetoFront.Count | scripts/plot_wildfire_pareto.py:59 | `zip(loads, costs)` yields as many pairs as the shorter list |
| ParetoFront.Enumerate | scripts/plot_wildfire_pareto.py:59 | `list(enumerate(zip(loads, costs)))`; its sorted order and contents are stated by `ParetoFront.SortedEnumeration` |
| ParetoFront.Pareto2DMin | scripts/plot_wildfire_pareto.py:54-69 | the returned indices are valid and hold exactly the points no other point beats; the loads along them never decrease and the costs strictly decrease; every input point is weakly dominated by a returned one; the result is empty iff the input is |
| ParetoFront.SortedEnumeration | scripts/plot_wildfire_pareto.py:59-61 | the enumerated pairs sorted by (load, cost) are strictly ordered by (load, cost, index) and are exactly the input pairs |
| ParetoFront.RecordIffUnbeaten | scripts/plot_wildfire_pareto.py:64-68 | in the sorted sweep, a point lowers the best cost so far iff no input point strictly dominates it or equals it at a smaller index |
| ParetoFront.ScanResult | scripts/plot_wildfire_pareto.py:63-69 | the loop's final state gives the frontier characterisation |
| ParetoFront.FrontierMembers | scripts/plot_wildfire_pareto.py:65-68 | an index is appended iff it is unbeaten |
| ParetoFront.FrontierCovers | scripts/plot_wildfire_pareto.py:65-68 | every skipped point is weakly dominated by an appended one |
| ParetoFront.FrontierIsStaircase | scripts/plot_wildfire_pareto.py:65-68 | appended points have nondecreasing load and strictly decreasing cost |
| ParetoFront.ScanKeep | scripts/plot_wildfire_pareto.py:66-68 | an iteration with a cost below the best so far appends the index and keeps the loop invariant |
| ParetoFront.ScanDrop | scripts/plot_wildfire_pareto.py:66 | an iteration with a cost not below the best keeps the invariant, and the last appended point covers it |
| ParetoFacts.FrontierDistinct | scripts/plot_wildfire_pareto.py:54-69 | no index is returned twice |
| ParetoFacts.FrontierIsAntichain | scripts/plot_wildfire_pareto.py:54-69 | no returned point strictly dominates another returned point |
| ParetoFacts.LaterCopyDropped | scripts/plot_wildfire_pareto.py:61-66 | of two identical (load, cost) points the later index is never returned |
| ParetoFacts.FirstCopyKept | scripts/plot_wildfire_pareto.py:61-66 | the first of identical points is returned iff nothing strictly dominates it |
| ParetoFacts.SortedByCostUnique | scripts/plot_wildfire_pareto.py:63-69 | two index lists in strictly decreasing cost with the same members are equal |
| ParetoFacts.SameHead | scripts/plot_wildfire_pareto.py:63-69 | two such lists start with the same index, the costliest member |
| ParetoFacts.SameTailMembers | scripts/plot_wildfire_pareto.py:63-69 | removing that common first index leaves two lists with the same members |
| ParetoFacts.FrontierUnique | scripts/plot_wildfire_pareto.py:54-69 | the characterisation determines the frontier: any two lists meeting it are equal |
| AntichainColumns.Coordinate | scripts/plot_wildfire_pareto.py:48-50 | `[float(p[k]) for p in pts]` has one entry per tuple, the tuple's `k`-th value |
| AntichainColumns.AntichainKey | scripts/plot_wildfire_pareto.py:46 | the sort key `(load, cost, time or 0.0)`; the order it gives is stated by `AntichainColumns.LoadAntichainSorted` |
| AntichainColumns.LoadAntichain | scripts/plot_wildfire_pareto.py:41-51 | `load_antichain` after the file is read; its properties are stated by `AntichainColumns.LoadAntichainShape`, `LoadAntichainLengths`, `LoadAntichainSorted`, `LoadAntichainPermutes`, `LoadAntichainTimes`, `LoadAntichainRowsPermute` and `LoadAntichainErr` |
| AntichainColumns.SortKeepsLengths | scripts/plot_wildfire_pareto.py:46 | all tuples have `k` values after the sort iff they had before |
| AntichainColumns.Zip | scripts/plot_wildfire_pareto.py:88 | `zip` pairs equal positions up to the shorter length |
| AntichainColumns.LoadAntichainShape | scripts/plot_wildfire_pareto.py:41-50 | on success with some tuples, loads and costs are the second and first values of the sorted tuples |
| AntichainColumns.LoadAntichainLengths | scripts/plot_wildfire_pareto.py:48-51 | the three returned lists have one entry per tuple |
| AntichainColumns.LoadAntichainSorted | scripts/plot_wildfire_pareto.py:46-50 | loads come out nondecreasing, ties in nondecreasing cost; with times, rows are in (load, cost, time) order |
| AntichainColumns.SortedLoadsCosts | scripts/plot_wildfire_pareto.py:46-49 | the (load, cost) part of that order |
| AntichainColumns.SortedRows | scripts/plot_wildfire_pareto.py:46-50 | the (load, cost, time) part of that order |
| AntichainColumns.LoadAntichainPermutes | scripts/plot_wildfire_pareto.py:41-49 | the (cost, load) pairs of the columns are those of the input tuples, with multiplicity |
| AntichainColumns.LoadAntichainTimes | scripts/plot_wildfire_pareto.py:46-50 | when the first sorted tuple has a third value, every tuple has one and the times are the third values of the sorted tuples; otherwise the times are all 0.0; with every tuple having a time, the times are always the sorted third values |
| AntichainColumns.LoadAntichainRowsPermute | scripts/plot_wildfire_pareto.py:46-50 | when every tuple has a time, the `(load, cost, time)` rows of the columns are those of the input tuples, with multiplicity |
| AntichainColumns.LoadAntichainErr | scripts/plot_wildfire_pareto.py:41-50 | empty input gives three empty lists; a tuple with fewer than two values is an error; every tuple having three values never errors; two values each with a short first sorted tuple never errors (times all 0.0); the only error is a missing coordinate |
| AntichainColumns.Zip3 | scripts/plot_wildfire_pareto.py:134 | `zip(loads, costs, times)` is the rows at equal positions, up to the shortest list |
| AntichainColumns.Unzip | scripts/plot_wildfire_pareto.py:135-137 | splitting rows into three columns and zipping them back gives the rows |
| AntichainColumns.Within | scripts/plot_wildfire_pareto.py:134 | the filtered rows all have `time <= time_max` and are no more than the input |
| AntichainColumns.WithinExactly | scripts/plot_wildfire_pareto.py:134 | the filter keeps, in input order, exactly the rows with `time <= time_max` |
| AntichainColumns.WithinEmpty | scripts/plot_wildfire_pareto.py:134-138 | the filter is empty iff every time exceeds the bound |
| AntichainColumns.ShiftMembers | scripts/plot_wildfire_pareto.py:134 | shifted indices are the original ones plus one (for the filter's induction) |
| AntichainColumns.PicksCons | scripts/plot_wildfire_pareto.py:134 | a pick of the tail extends to a pick of the whole list, keeping or skipping the head |
| AntichainColumns.TimeSlice | scripts/plot_wildfire_pareto.py:133-139 | error exactly when no row is within the bound; otherwise the three new lists have equal nonzero length and zip to the filtered rows |
| AntichainColumns.Shift | scripts/plot_wildfire_pareto.py:134 | every index moved up by one |
| LabelSelection.RangeSpec | scripts/plot_wildfire_pareto.py:171-174 | `range(start, stop, step)` yields `start + m*step` below `stop`, as many as fit, starting at `start` when nonempty |
| LabelSelection.RangeAll | scripts/plot_wildfire_pareto.py:171 | `range(n)` is `0..n-1` |
| LabelSelection.Range | scripts/plot_wildfire_pareto.py:171-174 | `range(start, stop, step)`; its contents are stated by `LabelSelection.RangeSpec` and `RangeAll` |
| LabelSelection.FloorDiv | scripts/plot_wildfire_pareto.py:173 | `a // b` is the quotient rounded toward minus infinity |
| LabelSelection.LabelIndicesAsWritten | scripts/plot_wildfire_pareto.py:169-174 | the label choice as written; stated by `LabelSelection.LabelIndicesAsWrittenSpec` and `LabelOverflow` |
| LabelSelection.LabelIndicesAsWrittenSpec | scripts/plot_wildfire_pareto.py:169-174 | as written: all points when `n <= label_max`; a zero bound with points divides by zero; otherwise labels at every multiple of `max(1, n // label_max)` below `n`, starting at 0, and no multiple below `n` missing |
| LabelSelection.LabelOverflow | scripts/plot_wildfire_pareto.py:169-174 | 26 points with the default bound 25 give 26 labels |
| LabelSelection.CeilDiv | scripts/plot_wildfire_pareto.py:173 | the least `q` with `b*q >= a` |
| LabelSelection.LabelIndices | scripts/plot_wildfire_pareto.py:169-174 | the corrected label choice; stated by `LabelSelection.LabelIndicesSpec` and `LabelIndicesAgree` |
| LabelSelection.LabelIndicesSpec | scripts/plot_wildfire_pareto.py:168-174 | corrected choice: never more than `label_max` labels; all points when they fit; the first point when any label is allowed; valid indices evenly spaced by `ceil(n / label_max)` from 0 up to within one step of the end of the list |
| LabelSelection.FewerSteps | scripts/plot_wildfire_pareto.py:173-174 | `k` multiples of a positive step below `l` steps number at most `l` |
| LabelSelection.LabelIndicesAgree | scripts/plot_wildfire_pareto.py:170-171 | when all points fit, the corrected choice is the script's choice |
| DominatedRegion.Firsts | scripts/plot_wildfire_pareto.py:89 | `fx` is the first component of each pair |
| DominatedRegion.Seconds | scripts/plot_wildfire_pareto.py:90 | `fy` is the second component of each pair |
| DominatedRegion.ShadePolygon | scripts/plot_wildfire_pareto.py:85-94 | no polygon for an empty frontier; `IndexError` when loads are given without costs; otherwise n+2 vertices, opened straight up from the first point, closed at `(x_max, y_max)` |
| DominatedRegion.ShadePolygonVertices | scripts/plot_wildfire_pareto.py:88-94 | the inner vertices are the frontier pairs rearranged into nondecreasing load |
| DominatedRegion.ShadePolygonOfSorted | scripts/plot_wildfire_pareto.py:88-94 | for a frontier already in load order the inner vertices are the frontier in the given order |
| TradespacePlot.MaxOf | scripts/plot_wildfire_pareto.py:196-197 | `max` of a nonempty list is an element not below any other |
| TradespacePlot.Bound | scripts/plot_wildfire_pareto.py:196-197 | `x_right` and `y_top`: the maximum scaled by 1.05; its use is stated by `TradespacePlot.Plan` |
| TradespacePlot.Select | scripts/plot_wildfire_pareto.py:207-208 | `[s[i] for i in idx]` |
| TradespacePlot.Prepare | scripts/plot_wildfire_pareto.py:127-139 | an empty antichain is an error; an error of `load_antichain` is reported as is; a nonempty successful antichain is plotted whole without a bound and as its time slice (with the slice's error, if empty) with one; success gives equal nonempty lists, every time within the bound |
| TradespacePlot.Plan | scripts/plot_wildfire_pareto.py:125-222 | errors in the order the script raises them (missing coordinate, empty antichain, empty slice, slice without a bound; the label `ZeroDivisionError` is not raised, see Left out); otherwise the plotted columns, the (corrected) labels, bounds 5% beyond the maxima, and for shading the Pareto frontier of the plotted points with its polygon and legend |
| DecimalText.NatToString | scripts/gen_catalogues.py:68-74 | `str(n)` is nonempty decimal digits without a leading zero |
| DecimalText.DigitRoundTrip | scripts/gen_catalogues.py:70 | a digit's character reads back as that digit |
| DecimalText.ParseNatToString | scripts/gen_catalogues.py:70 | the decimal text reads back as the number written |
| DecimalText.NatToStringInjective | scripts/gen_catalogues.py:68 | distinct numbers are written differently |
| CatalogueText.ModelNameInjective | scripts/gen_catalogues.py:66-68 | distinct rows get distinct `model{k}` keys |
| CatalogueText.ModelName | scripts/gen_catalogues.py:66-68 | the key `model{k}`; stated by `CatalogueText.ModelNameInjective` |
| CatalogueText.QuantityLine | scripts/gen_catalogues.py:70-74 | one quoted `- "<value> <unit>"` line; stated by `CatalogueText.QuantityLineCount` |
| CatalogueText.EntryText | scripts/gen_catalogues.py:67-75 | one `model{k}` block; stated by `CatalogueText.EntryTexts`, `EntryTextEndsWithLine` and `ResourceLines` |
| CatalogueText.Concat | scripts/gen_catalogues.py:86 | `''.join(impl)`; stated by `CatalogueText.ConcatEndsWithLine` |
| CatalogueText.HeaderText | scripts/gen_catalogues.py:78-85 | the header declaring title and units; stated by `CatalogueText.HeaderTextStart` and the `GenCatalogues.*HeaderDeclares` lemmas |
| CatalogueText.Text | scripts/gen_catalogues.py:78-87 | header, blocks and a final newline; stated by `CatalogueText.WrittenText` and `WrittenCatalogue` |
| CatalogueText.EntryTexts | scripts/gen_catalogues.py:65-76 | the `impl` list has one block per row, block `k` keyed `model{k}` |
| CatalogueText.OccurrencesAppend | scripts/gen_catalogues.py:68-75 | line counts add over concatenation |
| CatalogueText.OccurrencesNone | scripts/gen_catalogues.py:68-75 | a text without line breaks has no lines to count |
| CatalogueText.QuantityLineCount | scripts/gen_catalogues.py:72 | one quantity is written on exactly one line |
| CatalogueText.QuantityLinesCount | scripts/gen_catalogues.py:71-74 | a list of quantities takes one line each |
| CatalogueText.ResourceLines | scripts/gen_catalogues.py:71-87 | a block conforming to the header has as many `r_min` lines as the header declares resources |
| CatalogueText.LStripSpec | scripts/gen_catalogues.py:21 | left strip removes the longest leading run of whitespace |
| CatalogueText.LStrip | scripts/gen_catalogues.py:21 | left half of `strip()`; stated by `CatalogueText.LStripSpec` |
| CatalogueText.RStripSpec | scripts/gen_catalogues.py:21 | right strip removes the longest trailing run of whitespace |
| CatalogueText.RStrip | scripts/gen_catalogues.py:21 | right half of `strip()`; stated by `CatalogueText.RStripSpec` and `RStripKeepsFirst` |
| CatalogueText.RStripKeepsFirst | scripts/gen_catalogues.py:21 | right strip keeps a visible first character |
| CatalogueText.StripSpec | scripts/gen_catalogues.py:21 | `strip()` is a slice of the text with only whitespace cut off, and starts and ends with a visible character when nonempty |
| CatalogueText.Strip | scripts/gen_catalogues.py:21 | `str.strip()`; stated by `CatalogueText.StripSpec`, `StripOfSpace` and `StripOfTrimmed` |
| CatalogueText.FileTextEnding | scripts/gen_catalogues.py:21 | the file text ends in exactly one newline, after a visible character or nothing |
| CatalogueText.FileText | scripts/gen_catalogues.py:21 | `text.strip() + "\n"`; stated by `CatalogueText.FileTextEnding`, `FileTextIdempotent` and `FileTextOfLineEnded` |
| CatalogueText.StripOfSpace | scripts/gen_catalogues.py:21 | stripping whitespace only gives the empty text |
| CatalogueText.StripOfTrimmed | scripts/gen_catalogues.py:21 | stripping a text without surrounding whitespace changes nothing |
| CatalogueText.FileTextIdempotent | scripts/gen_catalogues.py:20-21 | writing the written text again gives the same file |
| CatalogueText.ConcatEndsWithLine | scripts/gen_catalogues.py:86 | joining blocks ends as the last block ends |
| CatalogueText.EntryTextEndsWithLine | scripts/gen_catalogues.py:68-75 | every block ends in a full line |
| CatalogueText.FileTextOfLineEnded | scripts/gen_catalogues.py:21 | a text starting visibly and ending in a blank line after a full line loses only its last newline |
| CatalogueText.WrittenText | scripts/gen_catalogues.py:21 | a `#` header followed by line-ended blocks and a newline is written without that newline |
| CatalogueText.WrittenCatalogue | scripts/gen_catalogues.py:20-21 | a generated catalogue with rows is written as its text minus the final newline, ending in a full line |
| CatalogueText.HeaderTextStart | scripts/gen_catalogues.py:78 | a catalogue text starts with `#` |
| CatalogueText.AppendEndsWithLine | scripts/gen_catalogues.py:86 | appending a line-ended text gives a line-ended text |
| GenCatalogues.AircraftRowOf | scripts/gen_catalogues.py:36-57 | an aircraft row keeps the drawn area and time; its cost is at least 120000 and its load at least 500, and neither is below the formula |
| GenCatalogues.AircraftRawCost | scripts/gen_catalogues.py:42-47 | the unclamped cost formula; stated by `GenCatalogues.AircraftFloorsInactive` and `AircraftMonotone` |
| GenCatalogues.AircraftRawLoad | scripts/gen_catalogues.py:48-53 | the unclamped load formula; stated by `GenCatalogues.AircraftFloorsInactive` and `AircraftMonotone` |
| GenCatalogues.AircraftRows | scripts/gen_catalogues.py:34-63 | n+2 rows, one per draw in order, the two anchors last; all respect the floors; with valid draws area and time are bin values |
| GenCatalogues.AircraftHeaderDeclares | scripts/gen_catalogues.py:78-85 | the written header declares `F: [ha]` and `R: USD, kg, min` |
| GenCatalogues.AircraftEntry | scripts/gen_catalogues.py:66-75 | an aircraft block has one `f_max` value (area, ha) and three `r_min` values (cost USD, load kg, time min) |
| GenCatalogues.AircraftEntries | scripts/gen_catalogues.py:66-76 | one block per row, in row order |
| GenCatalogues.GenAircraft | scripts/gen_catalogues.py:25-87 | the returned text is the aircraft header, the blocks of the rows and a newline; the file written from it drops only the last newline |
| GenCatalogues.AircraftFloorsInactive | scripts/gen_catalogues.py:42-56 | for valid draws the clamps never bind: cost at least 375000, load at least 1550 |
| GenCatalogues.AircraftMonotone | scripts/gen_catalogues.py:39-56 | more area and a faster response never lower cost or load; with valid draws more area raises both |
| GenCatalogues.CrewRowOf | scripts/gen_catalogues.py:101-111 | a crew row keeps area and time; cost at least 60000 and not below the formula |
| GenCatalogues.CrewRawCost | scripts/gen_catalogues.py:104-109 | the unclamped cost formula; stated by `GenCatalogues.CrewFloorInactive` and `CrewMonotone` |
| GenCatalogues.CrewRows | scripts/gen_catalogues.py:99-116 | n+2 rows, anchors last, floors respected, bin values for valid draws |
| GenCatalogues.CrewHeaderDeclares | scripts/gen_catalogues.py:130-136 | the written header declares `F: [ha]` and `R: USD, min` |
| GenCatalogues.CrewEntry | scripts/gen_catalogues.py:119-127 | one `f_max` value (ha), two `r_min` values (USD, min) |
| GenCatalogues.CrewEntries | scripts/gen_catalogues.py:119-128 | one block per row, in row order |
| GenCatalogues.GenCrews | scripts/gen_catalogues.py:90-138 | the returned text is the crew header, the blocks and a newline; written without the last newline |
| GenCatalogues.CrewFloorInactive | scripts/gen_catalogues.py:104-110 | for valid draws the clamp never binds: cost at least 198000 |
| GenCatalogues.CrewMonotone | scripts/gen_catalogues.py:104-110 | more area and a faster response never lower cost; with valid draws more area raises it |
| GenCatalogues.RetardantRowOf | scripts/gen_catalogues.py:151-154 | a retardant row keeps the load; cost at least 10000 and not below the formula |
| GenCatalogues.RetardantRawCost | scripts/gen_catalogues.py:152 | the unclamped cost formula; stated by `GenCatalogues.RetardantFloorInactive` and `RetardantMonotone` |
| GenCatalogues.RetardantRows | scripts/gen_catalogues.py:149-156 | n+2 rows, anchors last, floor respected, bin loads for valid draws |
| GenCatalogues.RetardantHeaderDeclares | scripts/gen_catalogues.py:169-173 | the written header declares `F: [kg]` and `R: [USD]` |
| GenCatalogues.RetardantEntry | scripts/gen_catalogues.py:159-166 | one `f_max` value (kg), one `r_min` value (USD) |
| GenCatalogues.RetardantEntries | scripts/gen_catalogues.py:159-167 | one block per row, in row order |
| GenCatalogues.GenRetardant | scripts/gen_catalogues.py:141-175 | the returned text is the retardant header, the blocks and a newline; written without the last newline |
| GenCatalogues.RetardantFloorInactive | scripts/gen_catalogues.py:152-153 | for valid draws the clamp never binds: cost at least 35000 |
| GenCatalogues.RetardantMonotone | scripts/gen_catalogues.py:152-153 | more load never costs less; with valid draws it costs more |
| GenCatalogues.BlockList2 | scripts/gen_catalogues.py:132-134 | two units are written as an `R:` block list |
| GenCatalogues.BlockList3 | scripts/gen_catalogues.py:80-83 | three units are written as an `R:` block list |
| GenCatalogues.FormatBlocks | scripts/gen_catalogues.py:65-76 | the loop builds the block of every row, keyed by its position |
| GenCatalogues.BinsAtLeast | scripts/gen_catalogues.py:31-32 | a value drawn from bins is at least their minimum |
| GenCatalogues.CatalogueBlocks | scripts/gen_catalogues.py:66-75 | two rows of a catalogue get different keys, and each block lists as many `r_min` lines as resources declared |

## Left out

- Reading `output.yaml` and `eval` of the `minimals` string are not modelled. `load_antichain` starts from the list of tuples, in the order `list(frozenset)` happened to produce. The stable sort makes the columns independent of that order except among tuples with equal sort keys. Mixed-length tuples are such a case: whether the times are read depends on which tuple sorts first.
- `Decimal` and float values become exact `real`s. `float('inf')` as the initial best cost is "no best yet". NaN and infinite coordinates are not modelled. Rounding of `max(...) * 1.05` is not modelled.
- Drawing is not modelled: matplotlib figure, scatter, colour bar, utopia marker, annotation text, axis limits below zero, titles, legend and saving. What `main` hands to matplotlib is modelled: points, label indices, bounds, frontier, polygon and legend choice.
- `ax.fill` joins consecutive frontier points with straight edges. The filled polygon is therefore not exactly the dominated region, which is a staircase. The model states the vertex lists, not the filled area.
- `argparse` is not modelled. The options are parameters. `--which`, `--path` and `--output` only select files.
- TradespacePlot.Plan: uses the corrected label choice (see Findings), not the script's `max(1, n // label_max)` step. So it never raises the script's `ZeroDivisionError` for `--label-max 0` with points (it labels nothing), and it never labels more than `--label-max` points.
- The catalogue generators' random seeding (`random.seed(7)`) and the random draws are not modelled. The draws are inputs, and validity of a draw is what `random.choice` and `random.randint` guarantee.
- `int(cost)` in the generators is the identity on the integers the formulas produce, so it is not modelled.
- Writing the three files, creating the directory and the `print` calls are not modelled. `write_yaml` is modelled as the text it writes (`FileText`).
- Python's `str.isspace` is modelled on a fixed list of whitespace characters (ASCII and the Unicode spaces). Only the generated text, which is ASCII, matters here.

## Findings

| source | as written | input that shows it | evidently intended | confidence | as-written member | corrected member |
|---|---|---|---|---|---|---|
| scripts/plot_wildfire_pareto.py:168-174 | labels every `max(1, n // label_max)`-th point when `n > label_max`; a `label_max` of 0 with points raises `ZeroDivisionError` | 26 points with the default `--label-max 25`: the step is 1 and all 26 points are labelled | at most `label_max` labels ("up to N points, evenly spaced"): a step of `ceil(n / label_max)`, and no labels for a bound of 0 | not executed | LabelSelection.LabelOverflow | LabelSelection.LabelIndicesSpec |
