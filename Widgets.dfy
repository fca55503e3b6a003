/**
  `_get_widgets`: which editing widget, if any, each property of a model
  gets, and the name-sorted list of the widgets built.

  For each property the value is first unwrapped (a dict stands for its
  "value" entry, a dict without one is skipped, None is skipped when
  `skip_none` holds); then an ordered first-match chain of tests on the
  property name picks the widget. The toolkit enumerations are abstract:
  NamedColor is a set of colour names and LineDash a non-empty list of
  dash patterns; MarkerType and LineCap are only named as option lists.

  Line numbers in the comments refer to pcp/plot/pcp_plot.py.
*/
module Widgets {
  import opened Wrappers
  import opened Strings
  import opened Bokeh

  type DashPatterns = s: seq<string> | |s| > 0 witness ["solid"]

  datatype Enums = Enums(namedColors: set<string>, lineDash: DashPatterns)

  /** The enumeration a Select widget offers as options. */
  datatype EnumName = NamedColor | MarkerType | LineCap | LineDash

  datatype Kind =
    | FloatSlider(start: int, end: int)
    | Select(options: EnumName)
    | ColorPicker
    | TextInput

  /** A widget: its name (the property it edits), its kind and its initial value. */
  datatype Widget = Widget(name: string, kind: Kind, value: Value)

  /** Python `v in list(NamedColor)`. */
  predicate IsNamedColor(v: Value, enums: Enums) {
    v.VStr? && v.s in enums.namedColors
  }

  /** The None test of line 210. */
  function KeepValue(v: Value, skipNone: bool): Option<Value> {
    if v == VNone && skipNone then None else Some(v)
  }

  /** Lines 205-211: the value the property is edited through, or None when it is skipped. */
  function Unwrap(v: Value, skipNone: bool): (r: Option<Value>)
    ensures r.Some? ==> !(skipNone && r.value == VNone)
    ensures r.Some? && v.VDict? ==> "value" in v.entries && r.value == v.entries["value"]
    ensures r.Some? && !v.VDict? ==> r.value == v
    ensures r.None? <==> (v.VDict? && "value" !in v.entries) ||
                          (skipNone && (if v.VDict? then v.entries["value"] else v) == VNone)
  {
    match v
    case VDict(entries) => if "value" in entries then KeepValue(entries["value"], skipNone) else None
    case _ => KeepValue(v, skipNone)
  }

  /** Lines 213-238: the first-match chain on the property name. */
  function Classify(p: string, v: Value, enums: Enums): (r: Option<Widget>)
    ensures r.Some? ==> r.value.name == p
  {
    if Contains(p, "alpha") then Some(Widget(p, FloatSlider(0, 1), v))
    else if Contains(p, "color") then
      if IsNamedColor(v, enums) then Some(Widget(p, Select(NamedColor), v))
      else Some(Widget(p, ColorPicker, v))
    else if EndsWith(p, "width") then Some(Widget(p, FloatSlider(0, 20), v))
    else if Contains(p, "marker") then Some(Widget(p, Select(MarkerType), v))
    else if EndsWith(p, "cap") then Some(Widget(p, Select(LineCap), v))
    else if p == "size" then Some(Widget(p, FloatSlider(0, 20), v))
    else if EndsWith(p, "text") || EndsWith(p, "label") then Some(Widget(p, TextInput, v))
    else if EndsWith(p, "dash") then
      if !v.VList? then Some(Widget(p, Select(LineDash), if Truthy(v) then v else VStr(enums.lineDash[0])))
      else None
    else None
  }

  // ---------------------------------------------------------------------------
  // The same rule written as a table of name tests tried in order.

  datatype Test = Substring(t: string) | Suffix(t: string) | Exactly(t: string)

  predicate Holds(test: Test, p: string) {
    match test
    case Substring(t) => Contains(p, t)
    case Suffix(t) => EndsWith(p, t)
    case Exactly(t) => p == t
  }

  datatype Action = Slider(end: int) | ColorChoice | EnumChoice(e: EnumName) | Text | DashChoice

  datatype Rule = Rule(test: Test, action: Action)

  const Rules: seq<Rule> := [
    Rule(Substring("alpha"), Slider(1)),
    Rule(Substring("color"), ColorChoice),
    Rule(Suffix("width"), Slider(20)),
    Rule(Substring("marker"), EnumChoice(MarkerType)),
    Rule(Suffix("cap"), EnumChoice(LineCap)),
    Rule(Exactly("size"), Slider(20)),
    Rule(Suffix("text"), Text),
    Rule(Suffix("label"), Text),
    Rule(Suffix("dash"), DashChoice)
  ]

  /** The index of the first rule at or after `from` whose test holds of p. */
  function FirstMatchFrom(rules: seq<Rule>, p: string, from: nat): (r: Option<nat>)
    requires from <= |rules|
    ensures r.Some? ==> from <= r.value < |rules| && Holds(rules[r.value].test, p)
    ensures r.Some? ==> forall j :: from <= j < r.value ==> !Holds(rules[j].test, p)
    ensures r.None? ==> forall j :: from <= j < |rules| ==> !Holds(rules[j].test, p)
    decreases |rules| - from
  {
    if from == |rules| then None
    else if Holds(rules[from].test, p) then Some(from)
    else FirstMatchFrom(rules, p, from + 1)
  }

  function FirstMatch(rules: seq<Rule>, p: string): Option<nat> {
    FirstMatchFrom(rules, p, 0)
  }

  /** What a rule does once its test has matched. */
  function Perform(a: Action, p: string, v: Value, enums: Enums): Option<Widget> {
    match a
    case Slider(end) => Some(Widget(p, FloatSlider(0, end), v))
    case ColorChoice => Some(Widget(p, if IsNamedColor(v, enums) then Select(NamedColor) else ColorPicker, v))
    case EnumChoice(e) => Some(Widget(p, Select(e), v))
    case Text => Some(Widget(p, TextInput, v))
    case DashChoice =>
      if v.VList? then None
      else Some(Widget(p, Select(LineDash), if Truthy(v) then v else VStr(enums.lineDash[0])))
  }

  /** The table, entry by entry. */
  lemma RulesTable()
    ensures |Rules| == 9
    ensures Rules[0] == Rule(Substring("alpha"), Slider(1)) && Rules[1] == Rule(Substring("color"), ColorChoice)
    ensures Rules[2] == Rule(Suffix("width"), Slider(20)) && Rules[3] == Rule(Substring("marker"), EnumChoice(MarkerType))
    ensures Rules[4] == Rule(Suffix("cap"), EnumChoice(LineCap)) && Rules[5] == Rule(Exactly("size"), Slider(20))
    ensures Rules[6] == Rule(Suffix("text"), Text) && Rules[7] == Rule(Suffix("label"), Text)
    ensures Rules[8] == Rule(Suffix("dash"), DashChoice)
  {
  }

  /** One step of the table search. */
  lemma FirstMatchStep(p: string, from: nat)
    requires from < |Rules|
    ensures FirstMatchFrom(Rules, p, from) ==
      if Holds(Rules[from].test, p) then Some(from) else FirstMatchFrom(Rules, p, from + 1)
  {
  }

  /** The chain is the table read top-down: the first rule whose test holds decides, and no
      matching rule means no widget. */
  lemma ClassifyFollowsRules(p: string, v: Value, enums: Enums)
    ensures Classify(p, v, enums) ==
      match FirstMatch(Rules, p)
      case None => None
      case Some(i) => Perform(Rules[i].action, p, v, enums)
  {
    RulesTable();
    FirstMatchStep(p, 0);
    if !Contains(p, "alpha") {
      FirstMatchStep(p, 1);
      if !Contains(p, "color") {
        FirstMatchStep(p, 2);
        if !EndsWith(p, "width") {
          FirstMatchStep(p, 3);
          if !Contains(p, "marker") {
            FirstMatchStep(p, 4);
            if !EndsWith(p, "cap") {
              LaterRules(p, v, enums);
            }
          }
        }
      }
    }
  }

  /** The table from rule 5 on, once the first five tests have failed. */
  lemma LaterRules(p: string, v: Value, enums: Enums)
    requires !Contains(p, "alpha") && !Contains(p, "color") && !EndsWith(p, "width")
    requires !Contains(p, "marker") && !EndsWith(p, "cap")
    ensures Classify(p, v, enums) ==
      match FirstMatchFrom(Rules, p, 5)
      case None => None
      case Some(i) => Perform(Rules[i].action, p, v, enums)
  {
    RulesTable();
    FirstMatchStep(p, 5);
    if p != "size" {
      LastRules(p, v, enums);
    }
  }

  /** The last three rules: text or label, then dash, then nothing. */
  lemma LastRules(p: string, v: Value, enums: Enums)
    requires !Contains(p, "alpha") && !Contains(p, "color") && !EndsWith(p, "width")
    requires !Contains(p, "marker") && !EndsWith(p, "cap") && p != "size"
    ensures Classify(p, v, enums) ==
      match FirstMatchFrom(Rules, p, 6)
      case None => None
      case Some(i) => Perform(Rules[i].action, p, v, enums)
  {
    RulesTable();
    FirstMatchStep(p, 6);
    if !EndsWith(p, "text") {
      FirstMatchStep(p, 7);
      if !EndsWith(p, "label") {
        FirstMatchStep(p, 8);
        if !EndsWith(p, "dash") {
          assert FirstMatchFrom(Rules, p, 9) == None;
        }
      }
    }
  }

  /** A widget is named after its property; a slider runs from 0 to 1 for alpha and from 0 to 20
      otherwise; only the dash Select replaces a falsy value by the first dash pattern. */
  lemma ClassifiedWidget(p: string, v: Value, enums: Enums)
    requires Classify(p, v, enums).Some?
    ensures var w := Classify(p, v, enums).value;
      && w.name == p
      && (w.kind.FloatSlider? ==> w.kind.start == 0 && w.kind.end == (if Contains(p, "alpha") then 1 else 20))
      && (w.kind != Select(LineDash) ==> w.value == v)
      && (w.kind == Select(LineDash) ==> EndsWith(p, "dash") && w.value == if Truthy(v) then v else VStr(enums.lineDash[0]))
  {
    if Contains(p, "alpha") {} else if Contains(p, "color") {} else if EndsWith(p, "width") {}
    else if Contains(p, "marker") {} else if EndsWith(p, "cap") {} else if p == "size" {}
    else if EndsWith(p, "text") || EndsWith(p, "label") {} else if EndsWith(p, "dash") {} else {}
  }

  /** A colour property (that is not an alpha) gets a Select exactly when its value is a named
      colour, and a colour picker otherwise. */
  lemma ColorWidget(p: string, v: Value, enums: Enums)
    requires Contains(p, "color") && !Contains(p, "alpha")
    ensures Classify(p, v, enums).Some?
    ensures Classify(p, v, enums).value.kind == Select(NamedColor) <==> IsNamedColor(v, enums)
    ensures Classify(p, v, enums).value.kind == ColorPicker <==> !IsNamedColor(v, enums)
  {
  }

  /** No widget exactly when no test matches, or the dash rule decides on a list value. */
  lemma NoWidget(p: string, v: Value, enums: Enums)
    ensures Classify(p, v, enums).None? <==>
      FirstMatch(Rules, p).None? || (Rules[FirstMatch(Rules, p).value].action == DashChoice && v.VList?)
  {
    ClassifyFollowsRules(p, v, enums);
  }

  // ---------------------------------------------------------------------------
  // The list of widgets of a model.

  /** The widget a property gets, after unwrapping. */
  function WidgetFor(prop: Prop, skipNone: bool, enums: Enums): (r: Option<Widget>)
    ensures r.Some? ==> r.value.name == prop.name
  {
    match Unwrap(prop.value, skipNone)
    case None => None
    case Some(v) => Classify(prop.name, v, enums)
  }

  function OptionToSeq<T>(o: Option<T>): seq<T> {
    if o.Some? then [o.value] else []
  }

  /** The widgets in the order the loop appends them. */
  function Collect(props: seq<Prop>, skipNone: bool, enums: Enums): (ws: seq<Widget>)
    ensures |ws| <= |props|
  {
    if props == [] then []
    else Collect(props[..|props| - 1], skipNone, enums) + OptionToSeq(WidgetFor(props[|props| - 1], skipNone, enums))
  }

  /** Every collected widget comes from a property and carries that property's name. */
  lemma {:induction false} CollectSound(props: seq<Prop>, skipNone: bool, enums: Enums, k: nat)
    requires k < |Collect(props, skipNone, enums)|
    ensures exists i :: 0 <= i < |props| && WidgetFor(props[i], skipNone, enums) == Some(Collect(props, skipNone, enums)[k])
                      && Collect(props, skipNone, enums)[k].name == props[i].name
  {
    var n := |props| - 1;
    var init := props[..n];
    var ws := Collect(props, skipNone, enums);
    var w := ws[k];
    if k < |Collect(init, skipNone, enums)| {
      CollectSound(init, skipNone, enums, k);
      var i :| 0 <= i < |init| && WidgetFor(init[i], skipNone, enums) == Some(w) && w.name == init[i].name;
      assert props[i] == init[i];
    } else {
      assert WidgetFor(props[n], skipNone, enums) == Some(w);
    }
  }

  /** Every property that gets a widget has it in the list. */
  lemma {:induction false} CollectComplete(props: seq<Prop>, skipNone: bool, enums: Enums, i: nat)
    requires i < |props| && WidgetFor(props[i], skipNone, enums).Some?
    ensures WidgetFor(props[i], skipNone, enums).value in Collect(props, skipNone, enums)
  {
    var n := |props| - 1;
    var init := props[..n];
    var w := WidgetFor(props[i], skipNone, enums).value;
    assert Collect(props, skipNone, enums) ==
      Collect(init, skipNone, enums) + OptionToSeq(WidgetFor(props[n], skipNone, enums));
    if i < n {
      assert init[i] == props[i];
      CollectComplete(init, skipNone, enums, i);
      assert w in Collect(init, skipNone, enums);
    } else {
      assert OptionToSeq(WidgetFor(props[n], skipNone, enums)) == [w];
    }
  }

  predicate DistinctNames(props: seq<Prop>) {
    forall i, j :: 0 <= i < j < |props| ==> props[i].name != props[j].name
  }

  predicate DistinctWidgetNames(ws: seq<Widget>) {
    forall i, j :: 0 <= i < j < |ws| ==> ws[i].name != ws[j].name
  }

  /** Appending a widget whose name is new keeps names distinct. */
  lemma AppendNewName(ws: seq<Widget>, more: seq<Widget>)
    requires DistinctWidgetNames(ws) && |more| <= 1
    requires forall k, l :: 0 <= k < |ws| && 0 <= l < |more| ==> ws[k].name != more[l].name
    ensures DistinctWidgetNames(ws + more)
  {
    var r := ws + more;
    forall i, j | 0 <= i < j < |r| ensures r[i].name != r[j].name {
      if j < |ws| {
        assert r[i] == ws[i] && r[j] == ws[j];
      } else {
        assert r[j] == more[j - |ws|] && r[i] == ws[i];
      }
    }
  }

  /** Properties are dictionary keys, so there is at most one widget per name. */
  lemma {:induction false} CollectDistinctNames(props: seq<Prop>, skipNone: bool, enums: Enums)
    requires DistinctNames(props)
    ensures DistinctWidgetNames(Collect(props, skipNone, enums))
  {
    if props != [] {
      var n := |props| - 1;
      var init := props[..n];
      var ws := Collect(init, skipNone, enums);
      CollectDistinctNames(init, skipNone, enums);
      var more := OptionToSeq(WidgetFor(props[n], skipNone, enums));
      assert Collect(props, skipNone, enums) == ws + more;
      forall k, l | 0 <= k < |ws| && 0 <= l < |more| ensures ws[k].name != more[l].name {
        CollectSound(init, skipNone, enums, k);
      }
      AppendNewName(ws, more);
    }
  }

  // ---------------------------------------------------------------------------
  // `sorted(widgets, key=lambda w: w.name)`.

  predicate Sorted(ws: seq<Widget>) {
    forall i, j :: 0 <= i < j < |ws| ==> !Less(ws[j].name, ws[i].name)
  }

  /** Insert w after every widget whose name is not greater (so the sort is stable). */
  function InsertByName(ws: seq<Widget>, w: Widget): (r: seq<Widget>)
    ensures |r| == |ws| + 1
  {
    if ws == [] then [w]
    else if Less(w.name, ws[0].name) then [w] + ws
    else [ws[0]] + InsertByName(ws[1..], w)
  }

  /** Inserting adds w and keeps every other widget. */
  lemma {:induction false} InsertByNamePermutes(ws: seq<Widget>, w: Widget)
    ensures multiset(InsertByName(ws, w)) == multiset(ws) + multiset{w}
  {
    if ws != [] && !Less(w.name, ws[0].name) {
      InsertByNamePermutes(ws[1..], w);
      assert ws == [ws[0]] + ws[1..];
    }
  }

  lemma {:induction false} InsertKeepsSorted(ws: seq<Widget>, w: Widget)
    requires Sorted(ws)
    ensures Sorted(InsertByName(ws, w))
  {
    if ws != [] {
      var r := InsertByName(ws, w);
      if Less(w.name, ws[0].name) {
        forall j | 0 < j < |r| ensures !Less(r[j].name, w.name) {
          if Less(r[j].name, w.name) {
            LessTransitive(r[j].name, w.name, ws[0].name);
            LessIrreflexive(ws[0].name);
          }
        }
      } else {
        var tail := InsertByName(ws[1..], w);
        InsertKeepsSorted(ws[1..], w);
        InsertByNamePermutes(ws[1..], w);
        forall j | 0 <= j < |tail| ensures !Less(tail[j].name, ws[0].name) {
          assert tail[j] in multiset(tail);
          assert tail[j] == w || tail[j] in multiset(ws[1..]);
          if tail[j] != w {
            assert tail[j] in ws[1..];
          }
        }
      }
    }
  }

  function SortByName(ws: seq<Widget>): (r: seq<Widget>)
    ensures |r| == |ws|
  {
    if ws == [] then []
    else InsertByName(SortByName(ws[..|ws| - 1]), ws[|ws| - 1])
  }

  /** Sorting reorders the widgets and neither adds nor drops any. */
  lemma {:induction false} SortByNamePermutes(ws: seq<Widget>)
    ensures multiset(SortByName(ws)) == multiset(ws)
  {
    if ws != [] {
      var init := ws[..|ws| - 1];
      SortByNamePermutes(init);
      InsertByNamePermutes(SortByName(init), ws[|ws| - 1]);
      assert ws == init + [ws[|ws| - 1]];
    }
  }

  lemma {:induction false} SortByNameSorted(ws: seq<Widget>)
    ensures Sorted(SortByName(ws))
  {
    if ws != [] {
      SortByNameSorted(ws[..|ws| - 1]);
      InsertKeepsSorted(SortByName(ws[..|ws| - 1]), ws[|ws| - 1]);
    }
  }

  /** The result of `_get_widgets`: the collected widgets sorted by name. */
  function WidgetList(props: seq<Prop>, skipNone: bool, enums: Enums): seq<Widget> {
    SortByName(Collect(props, skipNone, enums))
  }

  /** The list is sorted by name. */
  lemma WidgetListSorted(props: seq<Prop>, skipNone: bool, enums: Enums)
    ensures Sorted(WidgetList(props, skipNone, enums))
  {
    SortByNameSorted(Collect(props, skipNone, enums));
  }

  /** Every widget of the list is the widget of some property, named after it. */
  lemma WidgetListSound(props: seq<Prop>, skipNone: bool, enums: Enums, w: Widget)
    requires w in WidgetList(props, skipNone, enums)
    ensures exists i :: 0 <= i < |props| && WidgetFor(props[i], skipNone, enums) == Some(w) && w.name == props[i].name
  {
    var ws := Collect(props, skipNone, enums);
    SortByNamePermutes(ws);
    assert w in multiset(WidgetList(props, skipNone, enums));
    var k :| 0 <= k < |ws| && ws[k] == w;
    CollectSound(props, skipNone, enums, k);
  }

  /** Every property that gets a widget has it in the list. */
  lemma WidgetListComplete(props: seq<Prop>, skipNone: bool, enums: Enums, i: nat)
    requires i < |props| && WidgetFor(props[i], skipNone, enums).Some?
    ensures WidgetFor(props[i], skipNone, enums).value in WidgetList(props, skipNone, enums)
  {
    CollectComplete(props, skipNone, enums, i);
    SortByNamePermutes(Collect(props, skipNone, enums));
    assert WidgetFor(props[i], skipNone, enums).value in multiset(WidgetList(props, skipNone, enums));
  }

  /** With distinct names a widget occurs only once. */
  lemma CountOnce(ws: seq<Widget>, x: Widget)
    requires DistinctWidgetNames(ws)
    ensures multiset(ws)[x] <= 1
  {
    if ws != [] {
      var init := ws[..|ws| - 1];
      assert ws == init + [ws[|ws| - 1]];
      CountOnce(init, x);
      if x == ws[|ws| - 1] {
        assert x !in init;
      }
    }
  }

  /** A value counted at most once does not occur before its position. */
  lemma CountedOnceAt(r: seq<Widget>, a: nat, b: nat)
    requires a < b < |r| && multiset(r)[r[b]] <= 1
    ensures r[a] != r[b]
  {
    assert r == r[..b] + r[b..];
    assert r[b] in r[b..];
    assert multiset(r[..b])[r[b]] == 0;
    assert r[a] in r[..b];
  }

  /** Reordering keeps names distinct. */
  lemma PermutationKeepsDistinctNames(ws: seq<Widget>, r: seq<Widget>)
    requires DistinctWidgetNames(ws) && multiset(r) == multiset(ws)
    ensures DistinctWidgetNames(r)
  {
    forall a, b | 0 <= a < b < |r| ensures r[a].name != r[b].name {
      CountOnce(ws, r[b]);
      CountedOnceAt(r, a, b);
      assert r[a] in multiset(ws) && r[b] in multiset(ws);
      var ka :| 0 <= ka < |ws| && ws[ka] == r[a];
      var kb :| 0 <= kb < |ws| && ws[kb] == r[b];
      assert ka != kb;
    }
  }

  /** For distinct property names (dictionary keys) the list holds at most one widget per name. */
  lemma WidgetListDistinct(props: seq<Prop>, skipNone: bool, enums: Enums)
    requires DistinctNames(props)
    ensures DistinctWidgetNames(WidgetList(props, skipNone, enums))
  {
    CollectDistinctNames(props, skipNone, enums);
    SortByNamePermutes(Collect(props, skipNone, enums));
    PermutationKeepsDistinctNames(Collect(props, skipNone, enums), WidgetList(props, skipNone, enums));
  }

  /** Lines 200-241: loop over the properties, append the widget each one gets, sort by name. */
  method GetWidgets(props: seq<Prop>, skipNone: bool, enums: Enums) returns (ws: seq<Widget>)
    ensures ws == WidgetList(props, skipNone, enums)
    ensures Sorted(ws)
    ensures multiset(ws) == multiset(Collect(props, skipNone, enums))
  {
    var widgets: seq<Widget> := [];
    for i := 0 to |props|
      invariant widgets == Collect(props[..i], skipNone, enums)
    {
      assert props[..i + 1][..i] == props[..i];
      assert Collect(props[..i + 1], skipNone, enums) ==
        widgets + OptionToSeq(WidgetFor(props[i], skipNone, enums));
      var p, v := props[i].name, props[i].value;
      if v.VDict? {
        if "value" in v.entries {
          v := v.entries["value"];
        } else {
          assert WidgetFor(props[i], skipNone, enums) == None;
          continue;
        }
      }
      assert Unwrap(props[i].value, skipNone) == KeepValue(v, skipNone);
      if v == VNone && skipNone {
        continue;
      }
      var w := Classify(p, v, enums);
      assert WidgetFor(props[i], skipNone, enums) == w;
      if w.None? {
        continue;
      }
      widgets := widgets + [w.value];
    }
    assert props[..|props|] == props;
    ws := SortByName(widgets);
    SortByNameSorted(widgets);
    SortByNamePermutes(widgets);
  }
}
