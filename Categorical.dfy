/**
  The categorical encoding of `_parallel_plot`.

  A column (or the colour series) whose dtype is `object` is replaced by
  integer codes: each value becomes its position among the column's
  distinct values, listed in order of first appearance (`Series.unique()`),
  found with `np.where(unique == elem)[0].item()`. The categorical axis of
  such a column then carries a tick at each code `0 .. max` and labels tick
  `i` with `str` of the i-th distinct value. Python's `str` is a parameter
  `show` here.

  Line numbers in the comments refer to pcp/plot/pcp_plot.py.
*/
module Categorical {
  import opened Wrappers

  predicate NoDup<T(==)>(s: seq<T>) {
    forall i, j :: 0 <= i < j < |s| ==> s[i] != s[j]
  }

  /** `Series.unique()`: the distinct values, in order of first appearance. */
  function Distinct<T(==)>(s: seq<T>): (u: seq<T>)
    ensures NoDup(u)
    ensures forall i :: 0 <= i < |u| ==> u[i] in s
    ensures forall i :: 0 <= i < |s| ==> s[i] in u
    ensures |u| <= |s|
  {
    if s == [] then []
    else
      var init := s[..|s| - 1];
      var u := Distinct(init);
      assert forall i :: 0 <= i < |s| - 1 ==> s[i] == init[i];
      if s[|s| - 1] in u then u else u + [s[|s| - 1]]
  }

  /** The position of the first occurrence of x in s. */
  function FirstIndex<T(==)>(s: seq<T>, x: T): (k: nat)
    requires x in s
    ensures k < |s| && s[k] == x
    ensures forall j :: 0 <= j < k ==> s[j] != x
  {
    if s[0] == x then 0 else 1 + FirstIndex(s[1..], x)
  }

  lemma FirstIndexUnique<T>(s: seq<T>, x: T, k: nat)
    requires k < |s| && s[k] == x
    requires forall j :: 0 <= j < k ==> s[j] != x
    ensures FirstIndex(s, x) == k
  {
  }

  /** The first row's value is the first distinct value. */
  lemma {:induction false} DistinctHead<T>(s: seq<T>)
    requires |s| > 0
    ensures |Distinct(s)| > 0 && Distinct(s)[0] == s[0]
  {
    if |s| > 1 {
      var init := s[..|s| - 1];
      DistinctHead(init);
      assert init[0] == s[0];
    }
  }

  /** Appending an element does not move the first occurrence of a value already present. */
  lemma FirstIndexAppend<T>(s: seq<T>, y: T, x: T)
    requires x in s
    ensures x in s + [y] && FirstIndex(s + [y], x) == FirstIndex(s, x)
  {
    var k := FirstIndex(s, x);
    FirstIndexUnique(s + [y], x, k);
  }

  /** The distinct values are listed in the order in which they first appear. */
  lemma {:induction false} DistinctInFirstAppearanceOrder<T>(s: seq<T>, i: nat, j: nat)
    requires i < j < |Distinct(s)|
    ensures FirstIndex(s, Distinct(s)[i]) < FirstIndex(s, Distinct(s)[j])
  {
    var n := |s| - 1;
    var init, last := s[..n], s[n];
    assert s == init + [last];
    var u := Distinct(init);
    assert i < |u| && Distinct(s)[i] == u[i];
    var a := u[i];
    FirstIndexAppend(init, last, a);
    if j < |u| {
      var b := u[j];
      assert Distinct(s)[j] == b;
      DistinctInFirstAppearanceOrder(init, i, j);
      FirstIndexAppend(init, last, b);
    } else {
      assert last !in u && Distinct(s)[j] == last;
      assert last !in init;
      FirstIndexUnique(s, last, n);
    }
  }

  /** `np.where(u == x)[0]`: the positions of u that hold x, ascending. */
  function Where<T(==)>(u: seq<T>, x: T): (r: seq<nat>)
    ensures forall k :: k in r ==> k < |u| && u[k] == x
    ensures forall k :: 0 <= k < |u| && u[k] == x ==> k in r
    ensures forall a, b :: 0 <= a < b < |r| ==> r[a] < r[b]
  {
    if u == [] then []
    else
      var init := Where(u[..|u| - 1], x);
      assert forall a :: 0 <= a < |init| ==> init[a] in init;
      init + (if u[|u| - 1] == x then [|u| - 1] else [])
  }

  lemma {:induction false} WhereAbsent<T>(u: seq<T>, x: T)
    requires x !in u
    ensures Where(u, x) == []
  {
    if u != [] {
      WhereAbsent(u[..|u| - 1], x);
    }
  }

  /** In a sequence without duplicates, `np.where` finds exactly one position for a present value. */
  lemma {:induction false} WhereSingleton<T>(u: seq<T>, x: T, k: nat)
    requires NoDup(u) && k < |u| && u[k] == x
    ensures Where(u, x) == [k]
  {
    var init := u[..|u| - 1];
    if k == |u| - 1 {
      assert x !in init;
      WhereAbsent(init, x);
    } else {
      WhereSingleton(init, x, k);
    }
  }

  /** `.item()`: the only element of a one-element array; any other length raises (None). */
  function Item(r: seq<nat>): Option<nat> {
    if |r| == 1 then Some(r[0]) else None
  }

  /** `np.where(u == x)[0].item()`. */
  function Lookup<T(==)>(u: seq<T>, x: T): Option<nat> {
    Item(Where(u, x))
  }

  /** On a duplicate-free u the lookup of a present value never raises and finds x. */
  lemma LookupFound<T>(u: seq<T>, x: T, k: nat)
    requires NoDup(u) && k < |u| && u[k] == x
    ensures Lookup(u, x) == Some(k)
  {
    WhereSingleton(u, x, k);
  }

  /** The lookup raises for a value that is not there. */
  lemma LookupMissing<T>(u: seq<T>, x: T)
    requires x !in u
    ensures Lookup(u, x) == None
  {
    WhereAbsent(u, x);
  }

  /** The code of a value of the column: its lookup among the column's distinct values. */
  function CodeOf<T(==)>(col: seq<T>, x: T): (c: nat)
    requires x in col
    ensures c < |Distinct(col)| && Distinct(col)[c] == x
  {
    var u := Distinct(col);
    var k := FirstIndex(u, x);
    LookupFound(u, x, k);
    Lookup(u, x).value
  }

  /** `col.apply(lambda elem: np.where(col.unique() == elem)[0].item())`. */
  function Encode<T(==)>(col: seq<T>): (codes: seq<nat>)
    ensures |codes| == |col|
    ensures forall i :: 0 <= i < |col| ==>
      codes[i] < |Distinct(col)| && Distinct(col)[codes[i]] == col[i]
    ensures forall i, j :: 0 <= i < |col| && 0 <= j < |col| ==> (codes[i] == codes[j] <==> col[i] == col[j])
  {
    seq(|col|, i requires 0 <= i < |col| => CodeOf(col, col[i]))
  }

  /** The first row's value is encoded as 0. */
  lemma EncodeFirstIsZero<T>(col: seq<T>)
    requires |col| > 0
    ensures Encode(col)[0] == 0
  {
    DistinctHead(col);
  }

  /** Every code in [0, k) is used by some row. */
  lemma EncodeOnto<T>(col: seq<T>, c: nat)
    requires c < |Distinct(col)|
    ensures exists i :: 0 <= i < |col| && Encode(col)[i] == c
  {
    var x := Distinct(col)[c];
    var i := FirstIndex(col, x);
    assert Encode(col)[i] == c;
  }

  function MaxOf(s: seq<int>): (m: int)
    requires |s| > 0
    ensures m in s
    ensures forall i :: 0 <= i < |s| ==> s[i] <= m
  {
    if |s| == 1 then s[0]
    else
      var rest := MaxOf(s[1..]);
      assert forall i :: 1 <= i < |s| ==> s[i] == s[1..][i - 1];
      if s[0] < rest then rest else s[0]
  }

  /** The largest code is one less than the number of distinct values. */
  lemma EncodeMax<T>(col: seq<T>)
    requires |col| > 0
    ensures MaxOf(Encode(col)) == |Distinct(col)| - 1
  {
    var k := |Distinct(col)|;
    DistinctHead(col);
    EncodeOnto(col, k - 1);
  }

  /** A column of the frame, by dtype: floating point, integer, or `object`. */
  datatype Column<T> = Floats(reals: seq<real>) | Ints(ints: seq<int>) | Objects(objects: seq<T>)

  /** One step of the loop of lines 41-44 (and of line 38 for the colour series):
      an object column becomes its codes, any other column is left as it is. */
  function EncodeColumn<T(==)>(c: Column<T>): (r: Column<T>)
    ensures !c.Objects? ==> r == c
    ensures c.Objects? ==> (r.Ints? && |r.ints| == |c.objects| &&
      forall i :: 0 <= i < |r.ints| ==>
        0 <= r.ints[i] < |Distinct(c.objects)| && Distinct(c.objects)[r.ints[i]] == c.objects[i])
  {
    match c
    case Objects(xs) => Ints(Encode(xs))
    case _ => c
  }

  /** Encoding twice is encoding once: codes are integers and are left alone. */
  lemma EncodeColumnIdempotent<T>(c: Column<T>)
    ensures EncodeColumn(EncodeColumn(c)) == EncodeColumn(c)
  {
  }

  /** `df.columns.where(df.dtypes == np.object_).dropna()`: the positions of the object columns, ascending. */
  function ObjectColumns<T>(cols: seq<Column<T>>): (r: seq<nat>)
    ensures forall j: nat :: j in r <==> j < |cols| && cols[j].Objects?
  {
    if cols == [] then []
    else
      var init := cols[..|cols| - 1];
      assert forall j :: 0 <= j < |init| ==> init[j] == cols[j];
      ObjectColumns(init) + (if cols[|cols| - 1].Objects? then [|cols| - 1] else [])
  }

  /** A data frame whose columns the plot function overwrites in place. Columns are looked up by
      name (`df[col]`), so there is one name per column and no name twice. */
  class Frame<T(==)> {
    var names: seq<string>
    var columns: seq<Column<T>>

    predicate Valid()
      reads this
    {
      |names| == |columns| && NoDup(names)
    }

    constructor (names: seq<string>, columns: seq<Column<T>>)
      requires |names| == |columns| && NoDup(names)
      ensures Valid()
      ensures this.names == names && this.columns == columns
    {
      this.names := names;
      this.columns := columns;
    }

    /** Lines 40-44: every object column is replaced by its codes, every other column is kept. */
    method EncodeCategoricals()
      requires Valid()
      modifies this
      ensures Valid()
      ensures names == old(names)
      ensures |columns| == |old(columns)|
      ensures forall j :: 0 <= j < |columns| ==> columns[j] == EncodeColumn(old(columns)[j])
    {
      ghost var before := columns;
      var categorical := ObjectColumns(columns);
      for t := 0 to |categorical|
        invariant names == old(names)
        invariant |columns| == |before|
        invariant forall j :: 0 <= j < |columns| ==>
          columns[j] == if j in categorical[..t] then EncodeColumn(before[j]) else before[j]
      {
        var col := categorical[t];
        assert col in categorical;
        EncodeColumnIdempotent(before[col]);
        columns := columns[col := EncodeColumn(columns[col])];
        assert forall j :: j in categorical[..t + 1] <==> j in categorical[..t] || j == col by {
          assert categorical[..t + 1] == categorical[..t] + [col];
        }
      }
      assert categorical[..|categorical|] == categorical;
    }
  }

  /** `np.arange(n)`. */
  function Arange(n: int): (r: seq<int>)
    ensures |r| == if n < 0 then 0 else n
    ensures forall i :: 0 <= i < |r| ==> r[i] == i
  {
    if n <= 0 then [] else Arange(n - 1) + [n - 1]
  }

  /** The ticks and label overrides of one extra y axis. */
  datatype Axis = Axis(ticks: seq<int>, labels: map<int, string>)

  /** `{i: str(name) for i, name in enumerate(u)}`. */
  function Labels<T>(u: seq<T>, show: T -> string): (m: map<int, string>)
    ensures forall c :: c in m <==> 0 <= c < |u|
  {
    map c | 0 <= c < |u| :: show(u[c])
  }

  /** Lines 90-93 for a categorical column: ticks `np.arange(end + 1)` with `end` the largest code,
      and the labels of the raw column's distinct values. An empty column has no maximum (pandas
      gives NaN and `np.arange` raises): None. */
  function CategoricalAxis<T(==)>(raw: seq<T>, codes: seq<int>, show: T -> string): Option<Axis> {
    if codes == [] then None
    else Some(Axis(Arange(MaxOf(codes) + 1), Labels(Distinct(raw), show)))
  }

  /** For an encoded column the ticks are exactly 0 .. k-1, exactly the ticks are labelled, and the
      label of a row's code is `str` of that row's value. */
  lemma CategoricalAxisRoundTrip<T>(raw: seq<T>, show: T -> string)
    requires |raw| > 0
    ensures var axis := CategoricalAxis(raw, Encode(raw), show);
      && axis.Some?
      && axis.value.ticks == Arange(|Distinct(raw)|)
      && (forall c :: c in axis.value.labels <==> c in axis.value.ticks)
      && (forall i :: 0 <= i < |raw| ==>
            Encode(raw)[i] in axis.value.labels && axis.value.labels[Encode(raw)[i]] == show(raw[i]))
  {
    var codes := Encode(raw);
    var u := Distinct(raw);
    EncodeMax(raw);
    assert CategoricalAxis(raw, codes, show) == Some(Axis(Arange(|u|), Labels(u, show)));
    ArangeMembers(|u|);
    LabelsOfCodes(raw, show);
  }

  lemma ArangeMembers(n: nat)
    ensures forall c :: c in Arange(n) <==> 0 <= c < n
  {
    var r := Arange(n);
    forall c | 0 <= c < n ensures c in r {
      assert r[c] == c;
    }
  }

  /** The label of a row's code is `str` of the row's value. */
  lemma LabelsOfCodes<T>(raw: seq<T>, show: T -> string)
    ensures forall i :: 0 <= i < |raw| ==>
      Encode(raw)[i] in Labels(Distinct(raw), show) && Labels(Distinct(raw), show)[Encode(raw)[i]] == show(raw[i])
  {
    var codes, u := Encode(raw), Distinct(raw);
    forall i | 0 <= i < |raw| ensures codes[i] in Labels(u, show) && Labels(u, show)[codes[i]] == show(raw[i]) {
      assert u[codes[i]] == raw[i];
    }
  }

  /** An empty column gets no axis. */
  lemma CategoricalAxisEmpty<T>(raw: seq<T>, show: T -> string)
    ensures CategoricalAxis(raw, Encode(raw), show) == None <==> raw == []
  {
  }
}
