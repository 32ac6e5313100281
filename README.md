# MC_PD feature dashboard — selection and marker geometry

`streamlit_app2.py` is a Streamlit page over a statistics sheet with one row per
gait or clinical feature. Each row carries a category code, the mean and
standard deviation of four subject groups (HC, RBD, MildPD, ModPD), an ANOVA
p-value, a Kruskal-Wallis p-value, an effect size (eta squared) and six 0/1
flags, one for each pair of groups. The page keeps the significant rows,
ranks them per category, and shows them in tabs: an Overview tab, a Subject
Characteristics tab, one tab per category (a bar chart per feature, with a
marker line for each significant pair, plus a Yes/No table) and one tab per
pair of groups.

This project models the logic under the page in Dafny:

- `records.dfy` (module `Records`): the feature row, the category mapping,
  the four groups, the six pair keys and their split into two groups.
- `seqs.dfy` (module `Seqs`): the pandas operations used: a boolean mask
  (`Filter`) and `sort_values` (`Sort`, an insertion sort under a total
  preorder), with their permutation and order lemmas.
- `strings.dfy` (module `Strings`): Python's `str.replace`, `str.split` on
  one character, and string `<`.
- `selection.dfy` (module `Selection`): the significance filter, `df_top`
  (sort by category and descending eta, then `groupby("Category").head(15)`),
  the rows of a category tab and the rows of a pair tab.
- `tabs.dfy` (module `Tabs`): the category list, the tab list, pair labels,
  and the first-match dispatch of the selected tab.
- `markers.dfy` (module `Markers`): the significant pairs of one row, the
  bar extent, marker placement (the marker loop is a `method`), the y-axis
  range and the companion Yes/No table.

A category code outside 1..7 maps to a missing value, as pandas'
`Series.map` does; the model writes it `None`. `groupby(...).head(n)` drops
rows whose key is missing, so such rows never reach `df_top` or any tab.

Where the written description of the dashboard and the code differ, the model
follows the code:

- The description calls an unmapped category code a fatal error. The code
  turns it into a missing value and goes on (`Records.CategoryLabel` returns
  `None`).
- The description says the pair tab ranks and truncates per category and then
  pools the rows. The code sorts the pooled rows by eta and then takes
  `head(20)` per category (lines 205-207). The pair tab therefore lists its
  rows by non-increasing eta overall, and the `head(20)` removes nothing,
  because `df_top` holds at most 15 rows of each category
  (`Selection.PairHeadKeepsAll`).
- For means 10, 12, 15, 20 with deviations 1 and five flagged pairs, the
  description gives an axis upper bound of at least 24. The code's bound is
  21 + 0.05·12 + 5·0.03·12 = 23.4 (`Markers.FiveMarkerExample`).
- The description breaks eta ties by a stable sort. The sort at line 207 is
  not a stable sort, so the model states only non-increasing eta.

## Model

| member | source | states |
|---|---|---|
| Records.CategoryLabel | streamlit_app2.py:10-19 | a code has a label exactly when it is 1..7, and then the label is the code-th of the seven; any other code gives a missing value |
| Records.CategoryLabelInjective | streamlit_app2.py:10-18 | two codes with the same label are the same code |
| Records.CategoryLabelOnto | streamlit_app2.py:10-18 | each of the seven labels is reached by some code in 1..7 |
| Records.DemoClinicalOnlyCodeOne | streamlit_app2.py:11 | a code maps to Demo+Clinical if and only if it is 1 |
| Records.KeySplits | streamlit_app2.py:158-159 | splitting a pair key on `_` gives exactly the pair's two group names, both in `group_names` and different, so the unpacking and the `index` lookups succeed |
| Records.KeyShape | streamlit_app2.py:30 | each key has exactly one underscore and no blank |
| Records.KeyInjective | streamlit_app2.py:30 | different pairs have different keys |
| Records.KeysInOrder | streamlit_app2.py:129-130 | the flag columns of the six pairs are the six `pair_keys`, in that order |
| Records.GroupIndex | streamlit_app2.py:31 | each group sits at its own position in the group list |
| Seqs.Filter | streamlit_app2.py:35-39 | a boolean mask keeps only rows that pass the test, keeps every row that passes it, and yields no more rows than it was given |
| Seqs.FilterPermutation | streamlit_app2.py:121 | masking two permutations of one another gives permutations of one another |
| Seqs.FilterSorted | streamlit_app2.py:121 | masking a sorted sequence leaves it sorted |
| Seqs.Sort | streamlit_app2.py:41 | `sort_values` (here and at line 207) as an insertion sort under a key order; `Seqs.SortSpec` states that it returns a permutation of its input ordered by the key |
| Seqs.SortSpec | streamlit_app2.py:41 | `sort_values` returns a permutation of its input, ordered by the key |
| Strings.ReplaceAll | streamlit_app2.py:50 | Python's `str.replace` (here and at line 203); `Strings.UnderscoreRoundTrip` and `Tabs.PairLabelOfKey` state what the two replacements do |
| Strings.UnderscoreRoundTrip | streamlit_app2.py:203 | replacing `_` by ` vs ` and then ` vs ` by `_` gives back any string without a blank |
| Strings.Split | streamlit_app2.py:158 | Python's `str.split` on one character; `Strings.SplitJoin` and `Records.KeySplits` state that a pair key splits into its two group names |
| Strings.SplitJoin | streamlit_app2.py:158 | splitting `a_b` on `_` gives `[a, b]` when neither part contains `_` |
| Strings.Less | streamlit_app2.py:41 | Python's string `<`, which orders the category labels; `Strings.LessTotal`, `Strings.LessTransitive` and `Strings.LessIrreflexive` state that it is a strict total order |
| Strings.LessTotal | streamlit_app2.py:41 | of two different strings, one sorts before the other |
| Strings.LessTransitive | streamlit_app2.py:41 | string order is transitive |
| Strings.LessIrreflexive | streamlit_app2.py:41 | no string sorts before itself |
| Selection.SignificanceFilter | streamlit_app2.py:35-39 | a row is kept if and only if its ANOVA p < 0.05, its Kruskal p < 0.05 and its eta >= 0.139; the kept rows are a sub-multiset of the input |
| Selection.RankBefore | streamlit_app2.py:41 | the two-key order: category ascending with a missing category last, then eta descending; `Selection.RankBeforeTotalPreorder` and `Selection.SameCategoryRanked` state its properties |
| Selection.RankBeforeTotalPreorder | streamlit_app2.py:41 | the order by category ascending (missing last) and eta descending is total and transitive |
| Selection.SameCategoryRanked | streamlit_app2.py:41 | after that sort, the rows of any one category have non-increasing eta |
| Selection.CategoryRows | streamlit_app2.py:121 | `cat_df`: every row it returns carries the category and comes from the input, and every input row carrying the category is returned |
| Selection.HeadPerCategory | streamlit_app2.py:42 | `groupby.head` returns only rows of the input that have a category |
| Selection.HeadPerCategoryRows | streamlit_app2.py:42 | restricted to one category, `head(n)` is the first min(n, count) rows of that category, in order |
| Selection.HeadPerCategoryKeepsAll | streamlit_app2.py:207 | when every row has a category and no category has more than n rows, `head(n)` keeps the whole input |
| Selection.TopPerCategory | streamlit_app2.py:41-42 | `df_top`: the significant rows sorted by category and descending eta, first 15 of each category; `Selection.TopRowsSignificant`, `Selection.TopPerCategoryBounded`, `Selection.CategoryViewPrefix` and `Selection.CategoryViewIsTop` state its properties |
| Selection.TopRowsSignificant | streamlit_app2.py:41-42 | every `df_top` row passes all three thresholds and has a code in 1..7 |
| Selection.CategoryViewPrefix | streamlit_app2.py:121 | a category tab shows the first 15 of that category's significant rows ranked by eta, a permutation of them ordered by non-increasing eta |
| Selection.CategoryViewSize | streamlit_app2.py:121 | a category tab's rows are a sub-multiset of that category's significant rows, and there are exactly min(15, count) of them |
| Selection.CategoryViewOrdered | streamlit_app2.py:121 | a category tab lists its rows by non-increasing eta |
| Selection.CategoryViewIsTop | streamlit_app2.py:41-42 | a significant row of a category left out of `df_top` has an eta no larger than any row shown for that category |
| Selection.TopPerCategoryBounded | streamlit_app2.py:29 | `df_top` holds at most 15 rows of each category |
| Selection.EtaBefore | streamlit_app2.py:207 | the key of the pair tab's sort, eta descending; `Selection.EtaBeforeTotalPreorder` and `Selection.PairViewSpec` state its properties |
| Selection.PairPool | streamlit_app2.py:205-207 | the pair tab's pool: the `df_top` rows outside Demo+Clinical whose flag for the pair is 1, sorted by descending eta; its properties are stated by `Selection.PairPoolSpec` |
| Selection.PairPoolSpec | streamlit_app2.py:205-207 | the pool holds exactly the `df_top` rows outside Demo+Clinical with the pair's flag set, each as often as in `df_top`: a row is in the pool if and only if it is such a row; the pool is ordered by non-increasing eta and holds no more rows of a category than `df_top` |
| Selection.PairRows | streamlit_app2.py:205-207 | `top10_df`: `head(20)` per category of the pool; `Selection.PairHeadKeepsAll` and `Selection.PairViewSpec` state what it holds |
| Selection.PairHeadKeepsAll | streamlit_app2.py:207 | on `df_top` the pair tab's `head(20)` removes nothing, and each category gives at most 15 rows |
| Selection.PairViewSpec | streamlit_app2.py:205-207 | the pair tab shows exactly the `df_top` rows that lie outside Demo+Clinical and have the pair's flag equal to 1, each as often as in `df_top` (equal multisets), listed by non-increasing eta |
| Tabs.Categories | streamlit_app2.py:22 | each category label of the rows appears once, a label appears if and only if some row carries it, and all are among the seven labels |
| Tabs.TabList | streamlit_app2.py:50 | Overview, Subject Characteristics, the categories, then the six pair labels; `Tabs.TabListDistinct` and `Tabs.PairLabelsAreKeys` state its properties |
| Tabs.PairLabels | streamlit_app2.py:50 | the comprehension over `pair_keys`; `Tabs.PairLabelsAreKeys` and `Tabs.TabListDistinct` state its properties |
| Tabs.PairLabel | streamlit_app2.py:50 | a pair label is its key with `_` replaced by ` vs `; `Tabs.PairLabelOfKey`, `Tabs.PairLabelIsNoOtherTab` and `Tabs.PairLabelsDistinct` state its properties |
| Tabs.LabelKey | streamlit_app2.py:203 | the key of a selected label is the label with ` vs ` replaced by `_`; `Tabs.PairLabelRoundTrip` states that it inverts `Tabs.PairLabel` |
| Tabs.Dispatch | streamlit_app2.py:56 | the if/elif chain at lines 56, 112, 119 and 202 picks the first view whose test the selected label passes; `Tabs.DispatchOnTabs` states which view each tab reaches |
| Tabs.PairLabelOfKey | streamlit_app2.py:50 | the label of a pair key reads "A vs B" for its two group names |
| Tabs.PairLabelRoundTrip | streamlit_app2.py:203 | turning a pair label back into a key gives the key the label came from |
| Tabs.PairLabelIsNoOtherTab | streamlit_app2.py:50 | no pair label equals Overview, Subject Characteristics or a category label |
| Tabs.PairLabelsDistinct | streamlit_app2.py:50 | different pairs have different labels |
| Tabs.PairLabelsAreKeys | streamlit_app2.py:50 | the pair entries of the tab list are exactly the labels of the six keys |
| Tabs.TabListDistinct | streamlit_app2.py:50 | no label occurs twice in the tab list |
| Tabs.DispatchOnTabs | streamlit_app2.py:202-203 | for a label taken from the tab list, Overview, Subject Characteristics and category labels reach their own views, and the pair view is reached exactly for pair labels, with the key the label was made from |
| Markers.SignificantPairs | streamlit_app2.py:128-132 | a pair is listed if and only if its flag is 1, each once, in `pair_keys` order |
| Markers.MinOf | streamlit_app2.py:144 | `min` returns an element no larger than any other |
| Markers.MaxOf | streamlit_app2.py:145 | `max` returns an element no smaller than any other |
| Markers.YMin | streamlit_app2.py:144 | `y_min` is no larger than the low end of any group's error bar and equals one of them |
| Markers.YMax | streamlit_app2.py:145 | `y_max` is no smaller than the high end of any group's error bar and equals one of them |
| Markers.ExtentOrdered | streamlit_app2.py:144-145 | with non-negative deviations, y_min <= y_max and every bar with its error bar lies between them |
| Markers.MarkerPlacement | streamlit_app2.py:147-155 | the offset is 3% of the span and never negative; the base is 5% of the span below y_min when y_max <= 0 and y_min < 0, and 5% of the span above y_max otherwise |
| Markers.MarkerY | streamlit_app2.py:160 | `y_line` of the i-th significant pair; `Markers.MarkersStackUpward` states where it lies when y_max > 0 and `Markers.AxisMissesDownwardMarkers` when the bars lie below zero |
| Markers.LineHeight | streamlit_app2.py:160 | the loop's `base_y ± i·y_offset`, from the placement worked out before the loop, is the stacked height of position i; it lies at or above y_max when y_max > 0 and at or below y_min when the bars lie below zero (the closed form and the ordering of successive markers are `Markers.MarkersStackUpward`) |
| Markers.MarkerAt | streamlit_app2.py:158-171 | the trace of the i-th significant pair: named after the pair, from its first group to its second, at the stacked height; `Markers.PlaceMarkersFor` states that the loop yields exactly these, and `Markers.MarkersStackUpward` where they sit |
| Markers.DrawMarker | streamlit_app2.py:158-160 | one pass of the marker loop yields the pair's key, its two groups and its stacked height |
| Markers.PlaceMarkersFor | streamlit_app2.py:157-160 | the marker loop gives one marker per significant pair, in order, the i-th at the stacked height for position i |
| Markers.PlaceMarkers | streamlit_app2.py:123-160 | the markers of one row's chart are those of its significant pairs, placed over that row's extent |
| Markers.MarkersStackUpward | streamlit_app2.py:160 | when y_max > 0, marker i sits at y_max + 0.05·span + i·0.03·span, never below y_max, and no lower than marker i-1 |
| Markers.AxisRange | streamlit_app2.py:179-182 | the axis range never starts above y_min; `Markers.MarkersInsideAxis` and `Markers.AxisMissesDownwardMarkers` state what it contains |
| Markers.MarkersInsideAxis | streamlit_app2.py:179-182 | when y_max > 0, the axis range contains the bars and all k markers |
| Markers.AxisMissesDownwardMarkers | streamlit_app2.py:179-182 | when all bars lie below zero, the lowest of k markers falls below the axis range and the range ends below the top of the bars |
| Markers.NegativeExample | streamlit_app2.py:150-152 | a row with bars wholly below zero gets one marker at -11.4 and an axis range of [-11.24, -11.16], while its bars reach -3 |
| Markers.CoveringAxisRange | streamlit_app2.py:179-182 | the corrected range contains the bars and all k markers, whichever way the markers stack |
| Markers.FiveMarkerExample | streamlit_app2.py:179-182 | for means 10, 12, 15, 20 with deviations 1 and five flagged pairs, there are five markers and the axis runs from 7.2 to 23.4 |
| Markers.StatTable | streamlit_app2.py:187-193 | the table has six rows in `pair_keys` order, "Yes" exactly for pairs that get a marker and "No" otherwise, and the row's three statistics on every line |

## Left out

- Loading the two Excel sheets (lines 6-7) is file I/O. The model takes the feature rows as a parameter.
- The Streamlit calls (page setup, title, radio, markdown, info, dataframe, plotly_chart) are user interface. The Overview text (lines 56-108) and the demographics table (lines 112-114) appear only as targets of `Tabs.Dispatch`.
- Plotly figure construction and colours (lines 32-33, 134-142, 162-178, 215-229) are rendering. A marker keeps its pair name, its two groups and its height. Nothing else of the trace is modelled.
- The pair tab's per-row bar charts (lines 209-230) draw only. Their one computation, splitting the selected key into two groups, is `Records.KeySplits` together with `Tabs.PairLabelRoundTrip`.
- The `idx1, idx2` lookups at line 159 are never used by the code. The model proves the lookups succeed but does not keep the indices.
- Markers.StatTable: the `.4f` formatting (lines 190-192) is not modelled. The table keeps the three statistics as reals.
- Floating point is modelled with reals. Rounding and NaN comparisons are left out.
- Tabs.Categories: a row with an unmapped code adds no entry. pandas' `unique()` would add a NaN entry and a "nan" tab. The contract also does not state the order of first appearance, which the definition follows.
- Seqs.SortSpec: the order of rows with equal keys is not stated. The sort at line 207 is not stable, and line 41 promises nothing about ties.
- Markers.ExtentOrdered: requires non-negative standard deviations. The code does not check this, and a negative deviation could make y_min exceed y_max.
- Markers.MarkersInsideAxis: stated for y_max > 0 and y_min <= y_max only. The other branches are covered by the finding below.
- Re-running the filter and ranking on the same rows gives the same rows. Every modelled selection is a function, so no separate lemma states this.

## Findings

| source | as written | input that shows it | evidently intended | confidence | as-written member | corrected member |
|---|---|---|---|---|---|---|
| streamlit_app2.py:179-182 | the axis range is [y_min − k·offset, base + k·offset] in every branch, but when y_max <= 0 and y_min < 0 the base lies 5% of the span below y_min and the markers stack downward from it | means −10, −8, −6, −4, deviations 1, only HC_RBD flagged: the marker sits at −11.4, the range is [−11.24, −11.16], and the bars reach −3 | a range that holds the bars and reaches k offsets past the base on the side the markers stack toward | not executed | Markers.AxisMissesDownwardMarkers | Markers.CoveringAxisRange |
