# Parallel-coordinate plot: categorical encoding, style widgets and tab tree

This project is a Dafny model of the three pieces of sequential logic in
`pcp/plot/pcp_plot.py`, the front-end that draws a parallel-coordinate plot
and builds editing widgets for the plot's style properties:

- **Categorical encoding** (`_parallel_plot`). Each column of dtype `object`
  is overwritten in place by integer codes, and an `object` colour series is
  replaced by a new series of codes. A value's code is its position among the column's distinct values,
  in order of first appearance (`unique()`), found with
  `np.where(unique == value)[0].item()`. Such a column's axis has a tick at
  every code `0 .. max` and labels tick `i` with `str` of the i-th distinct
  value. Module `Categorical` holds distinct values, `np.where`/`.item()`,
  `Encode`, and a `Frame` class whose method overwrites the columns in a loop.
- **Widget choice** (`_get_widgets`). The value of each property of a model
  is unwrapped: a dict stands for its `"value"` entry and is skipped without
  one, and `None` is skipped when `skip_none` holds. Then an ordered chain of
  substring, suffix and equality tests on the property name picks a widget,
  or none. The widgets are collected in a loop and sorted by name. Module
  `Widgets` holds the chain (`Classify`), the same rule as a table read top
  down (`Rules`, `FirstMatch`), and the loop (`GetWidgets`). Module `Strings`
  holds the `in`, `endswith`, `<` and `title()` operations on `str`.
- **Tab tree** (`_meta_widgets`). A recursive walk over a model tree lists
  tabs in order:
  - one for the model's own widgets;
  - one per model-valued property that yields something;
  - one per renderer;
  - one per axis and grid, at most two of each because of `zip("XY", …)`.

  It returns nothing when there are no widgets and no tabs, the content of
  the lone tab (without its title, since indexing a `pn.Tabs` gives the
  content of the pair) when there is exactly one, and the group otherwise. Module `Tabs`
  holds the specification `MetaLayout` and the method `MetaWidgets`, which
  appends to a list in loops and recurses as the source does. Module `Bokeh`
  is the model tree: property values, renderers, axes and grids.

The toolkit enumerations `NamedColor` and `LineDash` are parameters (`Enums`):
a set of colour names and a non-empty list of dash patterns. `MarkerType` and
`LineCap` appear only as the option list a Select offers. Python's `str` of a
categorical value is a parameter `show`.

## Model

| member | source | states |
|---|---|---|
| Categorical.Distinct | pcp/plot/pcp_plot.py:42-43 | `unique()` has no duplicates, holds every value of the column and nothing else, and is no longer than the column |
| Categorical.DistinctHead | pcp/plot/pcp_plot.py:42-43 | the first distinct value is the first row's value |
| Categorical.DistinctInFirstAppearanceOrder | pcp/plot/pcp_plot.py:42-43 | distinct values are listed in the order of their first occurrence in the column |
| Categorical.NoDup | pcp/plot/pcp_plot.py:42-43 | specification of "no value twice"; `Categorical.Distinct` states that `unique()` has this property |
| Categorical.FirstIndex | pcp/plot/pcp_plot.py:42-43 | the position of the first occurrence: a valid index holding x, with no earlier position holding x |
| Categorical.Where | pcp/plot/pcp_plot.py:43 | `np.where(u == x)[0]` holds exactly the positions of u that hold x, in ascending order |
| Categorical.WhereSingleton | pcp/plot/pcp_plot.py:43 | on a duplicate-free u, `np.where` finds exactly the one position of a present value |
| Categorical.Item | pcp/plot/pcp_plot.py:43 | specification of `.item()`: the element of a one-element array, otherwise a raise (None); its properties are stated by `Categorical.LookupFound`, `Categorical.LookupMissing` |
| Categorical.Lookup | pcp/plot/pcp_plot.py:43 | specification of `np.where(u == x)[0].item()`; its properties are stated by `Categorical.LookupFound`, `Categorical.LookupMissing`, `Categorical.CodeOf` |
| Categorical.LookupFound | pcp/plot/pcp_plot.py:42-43 | on the distinct values, `.item()` never raises for a value of the column and returns its position |
| Categorical.LookupMissing | pcp/plot/pcp_plot.py:43 | `.item()` raises (None) for a value that is not among the distinct values |
| Categorical.CodeOf | pcp/plot/pcp_plot.py:42-43 | a value's code is a valid index of the distinct values, and the distinct value there is that value |
| Categorical.Encode | pcp/plot/pcp_plot.py:42-44 | one code per row, each in `[0, k)` for k distinct values and naming the row's value; two rows get equal codes exactly when their values are equal |
| Categorical.EncodeFirstIsZero | pcp/plot/pcp_plot.py:42-44 | the first row's value is encoded 0 |
| Categorical.EncodeOnto | pcp/plot/pcp_plot.py:42-44 | every code in `[0, k)` is used by some row |
| Categorical.MaxOf | pcp/plot/pcp_plot.py:81 | `max()` of a non-empty series is one of its values and no value exceeds it |
| Categorical.EncodeMax | pcp/plot/pcp_plot.py:80-81 | the largest code (`df[col].max()` after encoding) is k-1 |
| Categorical.EncodeColumn | pcp/plot/pcp_plot.py:40-44 | an object column becomes integer codes into its distinct values; other columns are unchanged |
| Categorical.EncodeColumnIdempotent | pcp/plot/pcp_plot.py:41-44 | encoding an already encoded column changes nothing |
| Categorical.ObjectColumns | pcp/plot/pcp_plot.py:40 | the selected positions are exactly the columns of dtype `object` |
| Categorical.Frame.Valid | pcp/plot/pcp_plot.py:40-44 | specification of the frame invariant: one name per column and no name twice, since columns are looked up by name; kept by `Categorical.Frame.EncodeCategoricals` |
| Categorical.Frame.constructor | pcp/plot/pcp_plot.py:40-44 | a frame starts with the given names and columns and satisfies its invariant |
| Categorical.Frame.EncodeCategoricals | pcp/plot/pcp_plot.py:40-44 | after the in-place loop every column is its encoding, the column names are unchanged and the frame invariant still holds |
| Categorical.Arange | pcp/plot/pcp_plot.py:90 | `np.arange(n)` is `0, 1, …, n-1` |
| Categorical.Labels | pcp/plot/pcp_plot.py:91-93 | the label map has a key for exactly each position of the distinct values |
| Categorical.ArangeMembers | pcp/plot/pcp_plot.py:90 | c is a tick of `np.arange(n)` exactly when `0 <= c < n` |
| Categorical.LabelsOfCodes | pcp/plot/pcp_plot.py:91-93 | the label of each row's code is `str` of that row's value |
| Categorical.CategoricalAxis | pcp/plot/pcp_plot.py:80-93 | specification of a categorical column's axis: ticks `np.arange(end + 1)` for the largest code `end`, labels of the raw column's distinct values, no axis for an empty column; its properties are stated by `Categorical.CategoricalAxisRoundTrip`, `Categorical.CategoricalAxisEmpty` |
| Categorical.CategoricalAxisRoundTrip | pcp/plot/pcp_plot.py:89-93 | for a non-empty column the ticks are exactly `0 .. k-1`, exactly the ticks carry labels, and label(code(x)) = str(x) for every row |
| Categorical.CategoricalAxisEmpty | pcp/plot/pcp_plot.py:80-81 | an empty column has no axis (no maximum); every other column has one |
| Strings.StartsWith | pcp/plot/pcp_plot.py:214-223 | specification of the prefix test from which `in` is built; its properties are stated by `Strings.StartsWithSlice` |
| Strings.StartsWithSlice | pcp/plot/pcp_plot.py:214 | the character-wise prefix test is `s[:len(t)] == t` |
| Strings.Contains | pcp/plot/pcp_plot.py:214-223 | specification of `sub in s` (lines 214, 216, 223); its properties are stated by `Strings.ContainsAt` |
| Strings.OccursAt | pcp/plot/pcp_plot.py:214-223 | specification of "the window of s at i spells sub", used by `Strings.ContainsAt` |
| Strings.ContainsAt | pcp/plot/pcp_plot.py:214-223 | `t in s` holds exactly when some window of s spells t |
| Strings.EndsWith | pcp/plot/pcp_plot.py:221-231 | specification of `s.endswith(t)` (lines 221, 225, 229, 231); its properties are stated by `Strings.EndsWithSlice` |
| Strings.EndsWithSlice | pcp/plot/pcp_plot.py:221-231 | `s.endswith(t)` holds exactly when the last `len(t)` characters of s are t |
| Strings.Less | pcp/plot/pcp_plot.py:241 | specification of `a < b` on `str`, the order `sorted` uses on widget names; its properties are stated by `Strings.LessIrreflexive`, `Strings.LessTransitive`, `Strings.LessTotal`, `Strings.LessAsymmetric` |
| Strings.LessIrreflexive | pcp/plot/pcp_plot.py:241 | no name sorts before itself |
| Strings.LessTransitive | pcp/plot/pcp_plot.py:241 | string `<` is transitive |
| Strings.LessTotal | pcp/plot/pcp_plot.py:241 | two different names are ordered one way or the other |
| Strings.LessAsymmetric | pcp/plot/pcp_plot.py:241 | string `<` never holds in both directions |
| Strings.IsUpper | pcp/plot/pcp_plot.py:181 | specification of an upper-case letter; its properties are stated by `Strings.ToUpper`, `Strings.ToLower` |
| Strings.IsLower | pcp/plot/pcp_plot.py:181 | specification of a lower-case letter; its properties are stated by `Strings.ToUpper`, `Strings.ToLower` |
| Strings.IsCased | pcp/plot/pcp_plot.py:181 | specification of the "previous character is cased" test that `title()` reads; its properties are stated by `Strings.TitleFromAt`, `Strings.TitleAt` |
| Strings.ToUpper | pcp/plot/pcp_plot.py:181 | a lower-case letter becomes the upper-case letter at the same position of the alphabet; every other character, `_` and digits included, is returned unchanged |
| Strings.ToLower | pcp/plot/pcp_plot.py:181 | an upper-case letter becomes the lower-case letter at the same position of the alphabet; every other character, `_` and digits included, is returned unchanged |
| Strings.TitleFrom | pcp/plot/pcp_plot.py:181 | the `title()` scan from a given state keeps the length |
| Strings.TitleFromAt | pcp/plot/pcp_plot.py:181 | during the scan, a character is lower-cased when the character before it in the original string (or, at the start, the starting state) is a letter, and upper-cased otherwise |
| Strings.TitleFromIdempotent | pcp/plot/pcp_plot.py:181 | scanning an already scanned string again from the same state changes nothing |
| Strings.Title | pcp/plot/pcp_plot.py:181 | `title()` keeps the length |
| Strings.TitleAt | pcp/plot/pcp_plot.py:181 | a letter is upper-cased exactly when it does not follow a letter, and lower-cased otherwise |
| Strings.TitleKeepsNonLetters | pcp/plot/pcp_plot.py:181 | `title()` keeps every character that is not a letter, such as `_` and digits, unchanged at its position |
| Strings.TitleIdempotent | pcp/plot/pcp_plot.py:181 | title-casing twice is title-casing once |
| Widgets.KeepValue | pcp/plot/pcp_plot.py:210-211 | specification of the `v is None and skip_none` test; its properties are stated by `Widgets.Unwrap` |
| Widgets.Unwrap | pcp/plot/pcp_plot.py:205-211 | a dict yields its `"value"` entry, any other value itself; the property is skipped exactly when it is a dict without `"value"` or the unwrapped value is None under `skip_none` |
| Widgets.Classify | pcp/plot/pcp_plot.py:213-238 | a chosen widget is named after its property |
| Widgets.IsNamedColor | pcp/plot/pcp_plot.py:217 | specification of `v in list(NamedColor)`; its properties are stated by `Widgets.ColorWidget` |
| Widgets.Holds | pcp/plot/pcp_plot.py:214-231 | specification of one test of the chain: substring, suffix or equality on the property name; used by `Widgets.FirstMatchFrom` and `Widgets.ClassifyFollowsRules` |
| Widgets.Rules | pcp/plot/pcp_plot.py:214-238 | the nine tests of the chain with their actions, in the chain's order; its entries are stated by `Widgets.RulesTable` |
| Widgets.RulesTable | pcp/plot/pcp_plot.py:214-238 | the table has nine entries: alpha, color, width suffix, marker, cap suffix, exactly size, text suffix, label suffix, dash suffix, each with its widget |
| Widgets.FirstMatchFrom | pcp/plot/pcp_plot.py:214-238 | the index found is the first rule whose test holds, and none found means no test holds |
| Widgets.FirstMatch | pcp/plot/pcp_plot.py:214-238 | specification of reading the table from the top; its properties are stated by `Widgets.FirstMatchFrom`, `Widgets.ClassifyFollowsRules` |
| Widgets.Perform | pcp/plot/pcp_plot.py:215-238 | specification of what a matched rule builds: a slider, a colour choice, a Select of an enumeration, a text input, or the dash Select; its properties are stated by `Widgets.ClassifyFollowsRules`, `Widgets.ClassifiedWidget` |
| Widgets.ClassifyFollowsRules | pcp/plot/pcp_plot.py:214-238 | the if/elif chain equals the rule table read top down: alpha, color, width suffix, marker, cap suffix, exactly size, text suffix, label suffix, dash suffix; the first rule that holds decides, and no match gives no widget |
| Widgets.LaterRules | pcp/plot/pcp_plot.py:227-238 | once the first five tests fail, the chain equals the table searched from rule 5 |
| Widgets.LastRules | pcp/plot/pcp_plot.py:229-238 | once the first six tests fail, the chain equals the table searched from rule 6 |
| Bokeh.Truthy | pcp/plot/pcp_plot.py:234 | specification of Python truthiness behind `v or patterns[0]`: None, False, 0, "", an empty list or dict are false, a model is true; its properties are stated by `Widgets.ClassifiedWidget` |
| Widgets.ClassifiedWidget | pcp/plot/pcp_plot.py:213-238 | a widget is named after its property; a slider runs from 0 to 1 for alpha and from 0 to 20 otherwise; only the dash Select changes the value, to the first dash pattern when the value is falsy |
| Widgets.ColorWidget | pcp/plot/pcp_plot.py:216-220 | a colour property gets a Select exactly when its value is a named colour, otherwise a colour picker |
| Widgets.NoWidget | pcp/plot/pcp_plot.py:231-238 | no widget exactly when no test matches, or the dash rule matches and the value is a list |
| Widgets.WidgetFor | pcp/plot/pcp_plot.py:204-238 | a property's widget carries the property's name |
| Widgets.Collect | pcp/plot/pcp_plot.py:201-240 | at most one widget per property |
| Widgets.CollectSound | pcp/plot/pcp_plot.py:204-240 | every collected widget is the widget of some property and is named after it |
| Widgets.CollectComplete | pcp/plot/pcp_plot.py:204-240 | every property that gets a widget has it in the list |
| Widgets.CollectDistinctNames | pcp/plot/pcp_plot.py:204-240 | distinct property names give widgets with distinct names |
| Widgets.InsertByName | pcp/plot/pcp_plot.py:241 | inserting adds exactly one element |
| Widgets.InsertByNamePermutes | pcp/plot/pcp_plot.py:241 | inserting keeps every widget and adds the new one |
| Widgets.InsertKeepsSorted | pcp/plot/pcp_plot.py:241 | inserting into a name-sorted list keeps it sorted |
| Widgets.SortByName | pcp/plot/pcp_plot.py:241 | sorting keeps the length |
| Widgets.SortByNamePermutes | pcp/plot/pcp_plot.py:241 | sorting is a permutation |
| Widgets.SortByNameSorted | pcp/plot/pcp_plot.py:241 | the sorted list is ordered by name |
| Widgets.Sorted | pcp/plot/pcp_plot.py:241 | specification of "ordered by name": no later widget's name is smaller than an earlier one's |
| Widgets.WidgetList | pcp/plot/pcp_plot.py:200-241 | specification of the result of `_get_widgets`: the collected widgets sorted by name; its properties are stated by `Widgets.WidgetListSorted`, `Widgets.WidgetListSound`, `Widgets.WidgetListComplete`, `Widgets.WidgetListDistinct`, `Widgets.GetWidgets` |
| Widgets.WidgetListSorted | pcp/plot/pcp_plot.py:241 | the result of `_get_widgets` is sorted by name |
| Widgets.WidgetListSound | pcp/plot/pcp_plot.py:204-241 | every widget of the result is the widget of some property, named after it |
| Widgets.WidgetListComplete | pcp/plot/pcp_plot.py:204-241 | every property that gets a widget has it in the result |
| Widgets.CountOnce | pcp/plot/pcp_plot.py:204-240 | with distinct names no widget occurs twice |
| Widgets.PermutationKeepsDistinctNames | pcp/plot/pcp_plot.py:241 | reordering keeps names distinct |
| Widgets.WidgetListDistinct | pcp/plot/pcp_plot.py:204-241 | property names are dictionary keys, so the result holds at most one widget per name |
| Widgets.GetWidgets | pcp/plot/pcp_plot.py:200-241 | the loop with its `continue`s yields the specified list, which is sorted by name and is a permutation of the widgets of the properties in order |
| Tabs.PairModels | pcp/plot/pcp_plot.py:187-192 | specification of the models behind `model.axis` (when a list) or `model.grid`, none when absent; its properties are stated by `Tabs.PairCount`, `Tabs.PairTabsTitles` |
| Tabs.PairSuffix | pcp/plot/pcp_plot.py:189-192 | specification of the title suffixes `-Axis` and `-Grid`; its properties are stated by `Tabs.PairTabsTitles` |
| Tabs.PairTitle | pcp/plot/pcp_plot.py:188-192 | specification of the title `"%s-Axis" % pre` (or `-Grid`) of the j-th zipped model; its properties are stated by `Tabs.PairTabsTitles` |
| Tabs.RendererModels | pcp/plot/pcp_plot.py:183-185 | specification of the renderers walked: the listed ones, none for "auto" or no renderers; its properties are stated by `Tabs.RendererTabsLength`, `Tabs.NoLayoutIff` |
| Tabs.MetaLayout | pcp/plot/pcp_plot.py:170-197 | specification of the result of `_meta_widgets`: None, the content of the lone tab, or the group of all tabs; its properties are stated by `Tabs.LayoutShape`, `Tabs.NoLayoutIff`, `Tabs.MetaWidgets` |
| Tabs.AllTabs | pcp/plot/pcp_plot.py:171-192 | specification of every tab appended, in order: own, properties, renderers, axes, grids; its properties are stated by `Tabs.TabCount`, `Tabs.OwnTabFirst`, `Tabs.LayoutShape` |
| Tabs.OwnTab | pcp/plot/pcp_plot.py:172-174 | specification of the tab of the model's own widgets; its properties are stated by `Tabs.OwnTabFirst`, `Tabs.TabCount` |
| Tabs.LiveChild | pcp/plot/pcp_plot.py:178-180 | specification of a model-valued property whose walk is not None; its properties are stated by `Tabs.PropTabsEmpty`, `Tabs.NoLayoutIff` |
| Tabs.PropTabs | pcp/plot/pcp_plot.py:175-181 | specification of the property tabs over the first n properties; its properties are stated by `Tabs.PropTabsLoop`, `Tabs.PropTabsEmpty`, `Tabs.PropTabsAtMost` |
| Tabs.PropTab | pcp/plot/pcp_plot.py:176-181 | specification of one property's tab, titled `p.title()`, for a live child only; its properties are stated by `Tabs.PropTabsStep`, `Tabs.PropTabsNoneLive` |
| Tabs.RendererTabs | pcp/plot/pcp_plot.py:183-186 | specification of the renderer tabs over the first n renderers; its properties are stated by `Tabs.RendererTabsLoop`, `Tabs.RendererTabsLength` |
| Tabs.PairTabs | pcp/plot/pcp_plot.py:187-192 | specification of the axis or grid tabs over the first n zipped models; its properties are stated by `Tabs.PairTabsLoop`, `Tabs.PairTabsLength`, `Tabs.PairTabsTitles` |
| Tabs.PairCount | pcp/plot/pcp_plot.py:187-192 | `zip("XY", models)` stops after the shorter: at most two, and all models when there are fewer |
| Tabs.MetaWidgets | pcp/plot/pcp_plot.py:170-197 | the recursive walk with its loops returns what `MetaLayout` specifies |
| Tabs.PropTabsLoop | pcp/plot/pcp_plot.py:175-181 | the property loop appends exactly the tabs that `PropTabs` specifies |
| Tabs.PropTabsStep | pcp/plot/pcp_plot.py:175-181 | one more property adds that property's tab, if any, at the end |
| Tabs.RendererTabsLoop | pcp/plot/pcp_plot.py:183-186 | the renderer loop appends one tab per listed renderer, none for "auto" or no renderers |
| Tabs.RendererTabsStep | pcp/plot/pcp_plot.py:185-186 | one more renderer adds its tab, titled with its type name and holding its walk, at the end |
| Tabs.PairTabsLoop | pcp/plot/pcp_plot.py:187-192 | the axis or grid loop appends the tabs `PairTabs` specifies |
| Tabs.PairTabsStep | pcp/plot/pcp_plot.py:187-192 | one more zipped model adds its titled tab, holding its walk, at the end |
| Tabs.OwnTabFirst | pcp/plot/pcp_plot.py:172-174 | own widgets always make a tab, and it is the first, titled with the model's type name |
| Tabs.LayoutShape | pcp/plot/pcp_plot.py:193-197 | the walk yields nothing exactly when there is no tab, the content of the lone tab (without its title) exactly when there is one, and the whole group exactly when there are two or more |
| Tabs.NoneLive | pcp/plot/pcp_plot.py:175-181 | specification of "none of the first n properties yields anything"; its properties are stated by `Tabs.PropTabsNoneLive`, `Tabs.NoneLiveAll` |
| Tabs.PropTabsNoneLive | pcp/plot/pcp_plot.py:175-181 | there are no property tabs exactly when none of the properties is live |
| Tabs.NoneLiveAll | pcp/plot/pcp_plot.py:175-181 | none of the first n properties is live exactly when no property below n is live |
| Tabs.PropTabsEmpty | pcp/plot/pcp_plot.py:175-181 | no property tab exactly when no model-valued property yields anything |
| Tabs.RendererTabsLength | pcp/plot/pcp_plot.py:183-186 | one tab per renderer, even for a renderer that yields nothing |
| Tabs.PairTabsLength | pcp/plot/pcp_plot.py:187-192 | one tab per zipped axis or grid |
| Tabs.NoLayoutIff | pcp/plot/pcp_plot.py:193-194 | the walk returns None exactly when the model has no own widgets, no model-valued property yields anything, and it has no renderers, axes or grids |
| Tabs.PairTabsTitles | pcp/plot/pcp_plot.py:187-192 | at most two axis (or grid) tabs, the first titled `X-Axis` and the second `Y-Axis` (or `-Grid`), each holding the walk of the first and the second model |
| Tabs.TabCount | pcp/plot/pcp_plot.py:172-192 | tab count = own tab (0 or 1) + yielding properties (at most one per property) + renderers + zipped axes + zipped grids |
| Tabs.PropTabsAtMost | pcp/plot/pcp_plot.py:175-181 | at most one tab per property |

## Left out

- Min-max normalisation of the plotted values (line 49) and the padding of the axis bounds (lines 80-84). Both are floating-point arithmetic.
- The numeric tick positions `np.linspace(start, end, 8)` of non-categorical axes (line 87). This is floating point too.
- Construction of the plot objects, the color mapper, tickers, formatters, glyphs, tools and toolbar (lines 39, 46-166). These are calls into the plotting toolkit and carry no logic of their own.
- Panel widget and container construction, `pn.Tabs(**kwargs)`, `pn.Column` and `w.jslink` (lines 171, 213-241). Only the widget kind, name and initial value are modelled.
- The `**kwargs` passed through to widgets and tabs. They only reach foreign constructors.
- The `drop`/`copy` of the input frame (lines 26-29). The model starts from the frame after that step.
- The unwrapping of `_list_attr_splat` values to their first element (lines 176-177). It is a toolkit class whose semantics are not visible here.
- `properties_with_values()` is taken as a given sequence of (name, value) pairs. The model tree is a finite, acyclic datatype, so toolkit reference cycles are not represented.
- The contents of `NamedColor`, `MarkerType`, `LineCap` and `LineDash`. `NamedColor` is an arbitrary set of names and `LineDash` an arbitrary non-empty list.
- Categorical.Frame.Valid: frames with two columns of the same name are excluded by the frame invariant. There `df[col]` is a frame, not a series, and the source raises.
- NaN values in categorical columns. numpy's comparison would make `.item()` raise for them; values here are compared with equality.
- The `print` statement on line 203. It is an expression statement with no effect.
- Strings.Title: only ASCII letters are cased. Python's `str.title()` also cases other Unicode letters.
- Tabs.MetaLayout: the truthiness of the widget column `pn.Column(*widgets)` is taken to be "the list is non-empty".
- Tabs.PairModels: `model.grid` is taken to be a list when present (the source only checks `hasattr`), and `model.axis` counts only when it is a list, as the source checks.
- Tabs.RendererTabsLoop: a renderer whose walk yields nothing still gets a tab, holding `NoLayout` where the source appends None.
- Tabs.PairTabsLoop: an axis or grid whose walk yields nothing still gets a tab, holding `NoLayout` where the source appends None (lines 189 and 192).
- Widgets.Classify: its own contract states only that a widget is named after its property. The precedence, bounds and values are stated by Widgets.ClassifyFollowsRules and Widgets.ClassifiedWidget.
