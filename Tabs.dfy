/**
  `_meta_widgets`: the recursive walk that turns a model tree into nested
  tabs of widgets.

  A model contributes, in this order: one tab of its own widgets (when it
  has any), one tab per property whose value is a model that yields
  something, one tab per renderer, and one tab for each of the first two
  axes and the first two grids (titled by zipping with "XY"). With no tab
  at all the walk yields nothing; with exactly one tab it yields that tab's
  content without its title (indexing a `pn.Tabs` gives the content of the
  pair); otherwise the group of tabs.

  Line numbers in the comments refer to pcp/plot/pcp_plot.py.
*/
module Tabs {
  import opened Wrappers
  import opened Strings
  import opened Bokeh
  import opened Widgets

  /** What `_meta_widgets` returns: None, the content of the lone tab (`tabs[0]`), or a `pn.Tabs`. */
  datatype Layout = NoLayout | Lone(content: Content) | TabGroup(tabs: seq<Tab>)

  datatype Tab = Tab(title: string, content: Content)

  /** A tab holds either the column of a model's own widgets or the result of a recursive call
      (which, for renderers, axes and grids, may be NoLayout). */
  datatype Content = WidgetColumn(widgets: seq<Widget>) | Sub(layout: Layout)

  datatype Pair = AxisPair | GridPair

  /** The models behind `model.axis` (a list) or `model.grid`; none when the attribute is absent. */
  function PairModels(m: Model, which: Pair): seq<Model> {
    match which
    case AxisPair => if m.axis.Present? then m.axis.models else []
    case GridPair => if m.grid.Present? then m.grid.models else []
  }

  function PairSuffix(which: Pair): string {
    match which
    case AxisPair => "-Axis"
    case GridPair => "-Grid"
  }

  /** The title `"%s-Axis" % pre` (or `-Grid`) of the j-th zipped model. */
  function PairTitle(which: Pair, j: nat): string
    requires j < 2
  {
    ["XY"[j]] + PairSuffix(which)
  }

  /** `zip("XY", models)` stops after two. */
  function PairCount(m: Model, which: Pair): (n: nat)
    ensures n <= 2 && n <= |PairModels(m, which)|
    ensures n == |PairModels(m, which)| || n == 2
  {
    if |PairModels(m, which)| < 2 then |PairModels(m, which)| else 2
  }

  function RendererModels(m: Model): seq<Model> {
    if m.renderers.Listed? then m.renderers.items else []
  }

  /** Lines 172-174: the tab of the model's own widgets, when there are any. */
  function OwnTab(m: Model, enums: Enums): seq<Tab> {
    var ws := WidgetList(m.props, true, enums);
    if ws != [] then [Tab(m.typeName, WidgetColumn(ws))] else []
  }

  /** Lines 170-197: the result of the walk. */
  function MetaLayout(m: Model, enums: Enums): Layout
    decreases m, 2
  {
    var ws := WidgetList(m.props, true, enums);
    var tabs := AllTabs(m, enums);
    if ws == [] && |tabs| == 0 then NoLayout
    else if !(|tabs| > 1) then Lone(tabs[0].content)
    else TabGroup(tabs)
  }

  /** Every tab the walk appends, in order. */
  function AllTabs(m: Model, enums: Enums): seq<Tab>
    decreases m, 1
  {
    OwnTab(m, enums)
    + PropTabs(m, |m.props|, enums)
    + RendererTabs(m, |RendererModels(m)|, enums)
    + PairTabs(m, AxisPair, PairCount(m, AxisPair), enums)
    + PairTabs(m, GridPair, PairCount(m, GridPair), enums)
  }

  /** A model-valued property that yields something. */
  predicate LiveChild(prop: Prop, enums: Enums)
    decreases prop, 3
  {
    prop.value.VModel? && MetaLayout(prop.value.model, enums) != NoLayout
  }

  /** Lines 175-181 over the first n properties. */
  function PropTabs(m: Model, n: nat, enums: Enums): seq<Tab>
    requires n <= |m.props|
    decreases m, 0, n
  {
    if n == 0 then []
    else
      PropTabs(m, n - 1, enums) + PropTab(m.props[n - 1], enums)
  }

  /** Lines 176-181 for one property: a model-valued property that yields something gets a tab
      titled `p.title()`. */
  function PropTab(prop: Prop, enums: Enums): seq<Tab>
    decreases prop, 4
  {
    if LiveChild(prop, enums)
    then [Tab(Title(prop.name), Sub(MetaLayout(prop.value.model, enums)))]
    else []
  }

  /** Lines 183-186 over the first n renderers: every renderer gets a tab, even an empty one. */
  function RendererTabs(m: Model, n: nat, enums: Enums): seq<Tab>
    requires n <= |RendererModels(m)|
    decreases m, 0, n
  {
    if n == 0 then []
    else
      var r := RendererModels(m)[n - 1];
      RendererTabs(m, n - 1, enums) + [Tab(r.typeName, Sub(MetaLayout(r, enums)))]
  }

  /** Lines 187-192 over the first n axes or grids, titled "X-Axis", "Y-Axis" (or "-Grid"). */
  function PairTabs(m: Model, which: Pair, n: nat, enums: Enums): seq<Tab>
    requires n <= PairCount(m, which)
    decreases m, 0, n
  {
    if n == 0 then []
    else
      var x := PairModels(m, which)[n - 1];
      PairTabs(m, which, n - 1, enums) + [Tab(PairTitle(which, n - 1), Sub(MetaLayout(x, enums)))]
  }

  // ---------------------------------------------------------------------------
  // The walk as the source writes it: a list of tabs appended to in several loops.

  method MetaWidgets(m: Model, enums: Enums) returns (r: Layout)
    ensures r == MetaLayout(m, enums)
    decreases m, 1
  {
    var tabs: seq<Tab> := [];
    var widgets := GetWidgets(m.props, true, enums);
    if widgets != [] {
      tabs := tabs + [Tab(m.typeName, WidgetColumn(widgets))];
    }
    ghost var own := tabs;
    assert own == OwnTab(m, enums);
    var props := PropTabsLoop(m, enums);
    tabs := tabs + props;
    var renderers := RendererTabsLoop(m, enums);
    tabs := tabs + renderers;
    var axes := PairTabsLoop(m, AxisPair, enums);
    tabs := tabs + axes;
    var grids := PairTabsLoop(m, GridPair, enums);
    tabs := tabs + grids;
    assert tabs == own + props + renderers + axes + grids;
    if widgets == [] && |tabs| == 0 {
      r := NoLayout;
    } else if !(|tabs| > 1) {
      r := Lone(tabs[0].content);
    } else {
      r := TabGroup(tabs);
    }
  }

  /** Lines 175-181: the loop over the properties. */
  method PropTabsLoop(m: Model, enums: Enums) returns (tabs: seq<Tab>)
    ensures tabs == PropTabs(m, |m.props|, enums)
    decreases m, 0
  {
    tabs := [];
    for i := 0 to |m.props|
      invariant tabs == PropTabs(m, i, enums)
    {
      var v := m.props[i].value;
      PropTabsStep(m, i + 1, enums);
      if v.VModel? {
        var sub := MetaWidgets(v.model, enums);
        if sub != NoLayout {
          tabs := tabs + [Tab(Title(m.props[i].name), Sub(sub))];
        }
      }
    }
  }

  /** Lines 183-186: the loop over the renderers, unless they are "auto" or absent. */
  method RendererTabsLoop(m: Model, enums: Enums) returns (tabs: seq<Tab>)
    ensures tabs == RendererTabs(m, |RendererModels(m)|, enums)
    decreases m, 0
  {
    tabs := [];
    match m.renderers {
      case Listed(items) =>
        for i := 0 to |items|
          invariant tabs == RendererTabs(m, i, enums)
        {
          var sub := MetaWidgets(items[i], enums);
          RendererTabsStep(m, i, enums);
          tabs := tabs + [Tab(items[i].typeName, Sub(sub))];
        }
      case _ =>
    }
  }

  lemma RendererTabsStep(m: Model, i: nat, enums: Enums)
    requires i < |RendererModels(m)|
    ensures RendererTabs(m, i + 1, enums) ==
      RendererTabs(m, i, enums) + [Tab(RendererModels(m)[i].typeName, Sub(MetaLayout(RendererModels(m)[i], enums)))]
  {
  }

  /** Lines 187-192: the loop over `zip("XY", model.axis)` or `zip("XY", model.grid)`. */
  method PairTabsLoop(m: Model, which: Pair, enums: Enums) returns (tabs: seq<Tab>)
    ensures tabs == PairTabs(m, which, PairCount(m, which), enums)
    decreases m, 0
  {
    tabs := [];
    var models := PairModels(m, which);
    for j := 0 to PairCount(m, which)
      invariant tabs == PairTabs(m, which, j, enums)
    {
      var sub := MetaWidgets(models[j], enums);
      PairTabsStep(m, which, j, sub, enums);
      tabs := tabs + [Tab(PairTitle(which, j), Sub(sub))];
    }
  }

  lemma PairTabsStep(m: Model, which: Pair, j: nat, sub: Layout, enums: Enums)
    requires j < PairCount(m, which)
    requires sub == MetaLayout(PairModels(m, which)[j], enums)
    ensures PairTabs(m, which, j + 1, enums) == PairTabs(m, which, j, enums) + [Tab(PairTitle(which, j), Sub(sub))]
  {
  }

  // ---------------------------------------------------------------------------
  // Properties of the walk.

  /** Own widgets always make a tab, and it comes first. */
  lemma OwnTabFirst(m: Model, enums: Enums)
    requires WidgetList(m.props, true, enums) != []
    ensures |AllTabs(m, enums)| > 0
    ensures AllTabs(m, enums)[0] == Tab(m.typeName, WidgetColumn(WidgetList(m.props, true, enums)))
  {
  }

  /** The walk yields nothing exactly when there is no tab, yields the content of the lone tab
      (without its title) when there is exactly one, and the whole group otherwise. */
  lemma LayoutShape(m: Model, enums: Enums)
    ensures MetaLayout(m, enums) == NoLayout <==> |AllTabs(m, enums)| == 0
    ensures MetaLayout(m, enums).Lone? <==> |AllTabs(m, enums)| == 1
    ensures MetaLayout(m, enums).Lone? ==> MetaLayout(m, enums).content == AllTabs(m, enums)[0].content
    ensures MetaLayout(m, enums).TabGroup? <==> |AllTabs(m, enums)| >= 2
    ensures MetaLayout(m, enums).TabGroup? ==> MetaLayout(m, enums).tabs == AllTabs(m, enums)
  {
  }

  /** One step of PropTabs: the tab of property n-1 if it yields something. */
  lemma PropTabsStep(m: Model, n: nat, enums: Enums)
    requires 0 < n <= |m.props|
    ensures PropTabs(m, n, enums) == PropTabs(m, n - 1, enums) + PropTab(m.props[n - 1], enums)
  {
  }

  /** None of the first n properties yields anything. */
  predicate NoneLive(m: Model, n: nat, enums: Enums)
    requires n <= |m.props|
  {
    n == 0 || (NoneLive(m, n - 1, enums) && !LiveChild(m.props[n - 1], enums))
  }

  lemma {:induction false} PropTabsNoneLive(m: Model, n: nat, enums: Enums)
    requires n <= |m.props|
    ensures PropTabs(m, n, enums) == [] <==> NoneLive(m, n, enums)
  {
    if n > 0 {
      PropTabsNoneLive(m, n - 1, enums);
      PropTabsStep(m, n, enums);
      var prev, last := PropTabs(m, n - 1, enums), PropTab(m.props[n - 1], enums);
      assert last == [] <==> !LiveChild(m.props[n - 1], enums);
      assert |PropTabs(m, n, enums)| == |prev| + |last|;
    }
  }

  lemma {:induction false} NoneLiveAll(m: Model, n: nat, enums: Enums)
    requires n <= |m.props|
    ensures NoneLive(m, n, enums) <==> forall i :: 0 <= i < n ==> !LiveChild(m.props[i], enums)
  {
    if n > 0 {
      NoneLiveAll(m, n - 1, enums);
      if NoneLive(m, n, enums) {
        forall i | 0 <= i < n ensures !LiveChild(m.props[i], enums) {
          if i < n - 1 {
            assert NoneLive(m, n - 1, enums);
          }
        }
      } else if NoneLive(m, n - 1, enums) {
        assert LiveChild(m.props[n - 1], enums);
      } else {
        var i :| 0 <= i < n - 1 && LiveChild(m.props[i], enums);
        assert LiveChild(m.props[i], enums);
      }
    }
  }

  /** No property tab exactly when no model-valued property yields anything. */
  lemma PropTabsEmpty(m: Model, n: nat, enums: Enums)
    requires n <= |m.props|
    ensures PropTabs(m, n, enums) == [] <==> forall i :: 0 <= i < n ==> !LiveChild(m.props[i], enums)
  {
    PropTabsNoneLive(m, n, enums);
    NoneLiveAll(m, n, enums);
  }

  lemma {:induction false} RendererTabsLength(m: Model, n: nat, enums: Enums)
    requires n <= |RendererModels(m)|
    ensures |RendererTabs(m, n, enums)| == n
  {
    if n > 0 {
      RendererTabsLength(m, n - 1, enums);
    }
  }

  lemma {:induction false} PairTabsLength(m: Model, which: Pair, n: nat, enums: Enums)
    requires n <= PairCount(m, which)
    ensures |PairTabs(m, which, n, enums)| == n
  {
    if n > 0 {
      PairTabsLength(m, which, n - 1, enums);
    }
  }

  /** The walk yields nothing exactly when the model has no widgets of its own, no model-valued
      property yields anything, and it has no renderers, axes or grids. */
  lemma NoLayoutIff(m: Model, enums: Enums)
    ensures MetaLayout(m, enums) == NoLayout <==>
      && WidgetList(m.props, true, enums) == []
      && (forall i :: 0 <= i < |m.props| ==> !LiveChild(m.props[i], enums))
      && RendererModels(m) == []
      && PairModels(m, AxisPair) == []
      && PairModels(m, GridPair) == []
  {
    LayoutShape(m, enums);
    var own, props := OwnTab(m, enums), PropTabs(m, |m.props|, enums);
    var rs := RendererTabs(m, |RendererModels(m)|, enums);
    var xs := PairTabs(m, AxisPair, PairCount(m, AxisPair), enums);
    var gs := PairTabs(m, GridPair, PairCount(m, GridPair), enums);
    assert |AllTabs(m, enums)| == |own| + |props| + |rs| + |xs| + |gs|;
    assert own == [] <==> WidgetList(m.props, true, enums) == [];
    PropTabsEmpty(m, |m.props|, enums);
    RendererTabsLength(m, |RendererModels(m)|, enums);
    PairTabsLength(m, AxisPair, PairCount(m, AxisPair), enums);
    PairTabsLength(m, GridPair, PairCount(m, GridPair), enums);
  }

  /** The axis (or grid) tabs: one per model up to two, the first titled "X", the second "Y",
      each holding the walk of that model. */
  lemma {:induction false} PairTabsTitles(m: Model, which: Pair, enums: Enums)
    ensures var t := PairTabs(m, which, PairCount(m, which), enums);
      && |t| <= 2
      && |t| == PairCount(m, which)
      && (|t| > 0 ==> t[0] == Tab("X" + PairSuffix(which), Sub(MetaLayout(PairModels(m, which)[0], enums))))
      && (|t| > 1 ==> t[1] == Tab("Y" + PairSuffix(which), Sub(MetaLayout(PairModels(m, which)[1], enums))))
  {
    var n, ms := PairCount(m, which), PairModels(m, which);
    PairTabsLength(m, which, n, enums);
    if n > 0 {
      PairTabsStep(m, which, 0, MetaLayout(ms[0], enums), enums);
      var first := PairTabs(m, which, 1, enums);
      assert first[0] == Tab(PairTitle(which, 0), Sub(MetaLayout(ms[0], enums)));
      assert PairTitle(which, 0) == "X" + PairSuffix(which);
      if n > 1 {
        PairTabsStep(m, which, 1, MetaLayout(ms[1], enums), enums);
        assert PairTitle(which, 1) == "Y" + PairSuffix(which);
      }
    }
  }

  /** The number of tabs: one for own widgets (if any), one per property that yields something,
      one per renderer, and at most two each for axes and grids. */
  lemma TabCount(m: Model, enums: Enums)
    ensures |AllTabs(m, enums)| ==
      |OwnTab(m, enums)| + |PropTabs(m, |m.props|, enums)| + |RendererModels(m)|
      + PairCount(m, AxisPair) + PairCount(m, GridPair)
    ensures |OwnTab(m, enums)| == if WidgetList(m.props, true, enums) == [] then 0 else 1
    ensures |PropTabs(m, |m.props|, enums)| <= |m.props|
  {
    RendererTabsLength(m, |RendererModels(m)|, enums);
    PairTabsLength(m, AxisPair, PairCount(m, AxisPair), enums);
    PairTabsLength(m, GridPair, PairCount(m, GridPair), enums);
    PropTabsAtMost(m, |m.props|, enums);
  }

  lemma {:induction false} PropTabsAtMost(m: Model, n: nat, enums: Enums)
    requires n <= |m.props|
    ensures |PropTabs(m, n, enums)| <= n
  {
    if n > 0 {
      PropTabsAtMost(m, n - 1, enums);
    }
  }
}
