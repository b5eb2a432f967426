/** The glue of the pixel-classification widget: the table of filter classes
    and scales offered in the feature dialog, the default feature selection,
    the filter bank built from a selection, the Run-button predicate, the
    classification pipeline run in the background, and the two outputs it
    feeds (the segmentation labels and the class probabilities). */
module Plugin {
  import opened Failures
  import opened NdArray
  import Filters
  import Classifier
  import Gui

  /** len(filter_list) and len(scale_list). */
  const FilterCount: nat := 6
  const ScaleCount: nat := 7

  /** scale_list: the scales offered for every filter class. */
  const ScaleList: seq<real> := [0.3, 0.7, 1.0, 1.6, 3.5, 5.0, 10.0]

  /** The scales are strictly ascending. */
  lemma ScaleListAscending(i: nat, j: nat)
    requires i < j < ScaleCount
    ensures ScaleList[i] < ScaleList[j]
  {
  }

  /** filter_list[kind](scale): the dialog rows are Gaussian, LaplacianOfGaussian,
      GaussianGradientMagnitude, DifferenceOfGaussians, StructureTensorEigenvalues,
      HessianOfGaussianEigenvalues, each built with its scale alone. */
  function MakeFilter(kind: nat, scale: real): (f: Filters.Filter)
    requires kind < FilterCount
    ensures f.scale == scale
    ensures f.DifferenceOfGaussians? || f.StructureTensorEigenvalues? ==> f.innerK == Filters.DefaultInnerK
    ensures KindIndex(f) == kind
  {
    match kind
    case 0 => Filters.Gaussian(scale)
    case 1 => Filters.LaplacianOfGaussian(scale)
    case 2 => Filters.GaussianGradientMagnitude(scale)
    case 3 => Filters.DifferenceOfGaussians(scale, Filters.DefaultInnerK)
    case 4 => Filters.StructureTensorEigenvalues(scale, Filters.DefaultInnerK)
    case _ => Filters.HessianOfGaussianEigenvalues(scale)
  }

  /** The row of filter_list that holds the filter's class. */
  function KindIndex(f: Filters.Filter): (i: nat)
    ensures i < FilterCount
  {
    match f
    case Gaussian(_) => 0
    case LaplacianOfGaussian(_) => 1
    case GaussianGradientMagnitude(_) => 2
    case DifferenceOfGaussians(_, _) => 3
    case StructureTensorEigenvalues(_, _) => 4
    case HessianOfGaussianEigenvalues(_) => 5
  }

  /** Every filter the table offers is determined by its row and its scale. */
  lemma MakeFilterInjective(k1: nat, s1: real, k2: nat, s2: real)
    requires k1 < FilterCount && k2 < FilterCount
    requires MakeFilter(k1, s1) == MakeFilter(k2, s2)
    ensures k1 == k2 && s1 == s2
  {
    assert KindIndex(MakeFilter(k1, s1)) == k1;
  }

  /** A key of the default feature selection: every cell of the table except the
      smallest scale for any class but the first. */
  predicate DefaultFeature(k: Gui.Key)
  {
    0 <= k.0 < FilterCount && 0 <= k.1 < ScaleCount && !(k.0 >= 1 && k.1 == 0)
  }

  /** The keys of a dict's items, in its order. */
  function KeysOf(items: seq<(Gui.Key, bool)>): (ks: seq<Gui.Key>)
    ensures |ks| == |items| && forall i :: 0 <= i < |items| ==> ks[i] == items[i].0
  {
    seq(|items|, i requires 0 <= i < |items| => items[i].0)
  }

  /** The items without those of key k, in their order. */
  function Without(items: seq<(Gui.Key, bool)>, k: Gui.Key): (r: seq<(Gui.Key, bool)>)
    ensures forall kv :: kv in r <==> kv in items && kv.0 != k
    ensures |r| <= |items|
  {
    if items == [] then []
    else
      var rest := Without(items[1..], k);
      assert items == [items[0]] + items[1..];
      if items[0].0 == k then rest else [items[0]] + rest
  }

  /** A key is in the dict iff it holds one of the two truth values. */
  lemma KeyIn(items: seq<(Gui.Key, bool)>, k: Gui.Key)
    ensures k in KeysOf(items) <==> (k, true) in items || (k, false) in items
  {
    var ks := KeysOf(items);
    if k in ks {
      var i :| 0 <= i < |ks| && ks[i] == k;
      if items[i].1 {
        assert items[i] == (k, true) && items[i] in items;
      } else {
        assert items[i] == (k, false) && items[i] in items;
      }
    }
    if (k, true) in items || (k, false) in items {
      var b := (k, true) in items;
      var i :| 0 <= i < |items| && items[i] == (k, b);
      assert ks[i] == k && ks[i] in ks;
    }
  }

  /** Without removes exactly the key k. */
  lemma WithoutKeys(items: seq<(Gui.Key, bool)>, k: Gui.Key)
    ensures forall k' :: k' in KeysOf(Without(items, k)) <==> k' in KeysOf(items) && k' != k
  {
    forall k'
      ensures k' in KeysOf(Without(items, k)) <==> k' in KeysOf(items) && k' != k
    {
      KeyIn(items, k');
      KeyIn(Without(items, k), k');
    }
  }

  lemma KeysOfCons(x: (Gui.Key, bool), rest: seq<(Gui.Key, bool)>)
    ensures KeysOf([x] + rest) == [x.0] + KeysOf(rest)
  {
  }

  /** The tail of a dict with increasing keys has increasing keys, all above the head's. */
  lemma OrderedTail(items: seq<(Gui.Key, bool)>)
    requires items != []
    ensures Gui.LexIncreasing(KeysOf(items)) ==>
              Gui.LexIncreasing(KeysOf(items[1..])) &&
              forall k' :: k' in KeysOf(items[1..]) ==> Gui.LexLess(items[0].0, k')
  {
    var ks, tail := KeysOf(items), KeysOf(items[1..]);
    if Gui.LexIncreasing(ks) {
      forall i, j | 0 <= i < j < |tail|
        ensures Gui.LexLess(tail[i], tail[j])
      {
        assert tail[i] == ks[i + 1] && tail[j] == ks[j + 1];
      }
      forall k' | k' in tail
        ensures Gui.LexLess(items[0].0, k')
      {
        var j :| 0 <= j < |tail| && tail[j] == k';
        assert ks[0] == items[0].0 && ks[j + 1] == k';
      }
    }
  }

  /** A head below all keys of an increasing tail keeps the keys increasing. */
  lemma OrderedCons(x: (Gui.Key, bool), rest: seq<(Gui.Key, bool)>)
    ensures Gui.LexIncreasing(KeysOf(rest)) && (forall k' :: k' in KeysOf(rest) ==> Gui.LexLess(x.0, k')) ==>
              Gui.LexIncreasing(KeysOf([x] + rest))
  {
    var ks, tail := KeysOf([x] + rest), KeysOf(rest);
    if Gui.LexIncreasing(tail) && (forall k' :: k' in tail ==> Gui.LexLess(x.0, k')) {
      forall i, j | 0 <= i < j < |ks|
        ensures Gui.LexLess(ks[i], ks[j])
      {
        assert ks[j] == tail[j - 1];
        if i > 0 {
          assert ks[i] == tail[i - 1];
        }
      }
    }
  }

  /** On a dict with increasing keys, Without keeps the keys increasing and removes
      one item exactly when the key is present. */
  lemma {:induction false} WithoutOrdered(items: seq<(Gui.Key, bool)>, k: Gui.Key)
    requires Gui.LexIncreasing(KeysOf(items))
    ensures Gui.LexIncreasing(KeysOf(Without(items, k)))
    ensures |Without(items, k)| == |items| - (if k in KeysOf(items) then 1 else 0)
  {
    if items != [] {
      var rest := Without(items[1..], k);
      assert items == [items[0]] + items[1..];
      KeysOfCons(items[0], items[1..]);
      OrderedTail(items);
      WithoutOrdered(items[1..], k);
      WithoutKeys(items[1..], k);
      if items[0].0 != k {
        KeysOfCons(items[0], rest);
        OrderedCons(items[0], rest);
      }
    }
  }

  /** del d[k]: the dict without the item of key k; KeyError when there is none. */
  function DelKey(items: seq<(Gui.Key, bool)>, k: Gui.Key): (r: Result<seq<(Gui.Key, bool)>>)
    ensures r.Ok? <==> k in KeysOf(items)
    ensures r.Err? ==> r.error == MissingKey
    ensures r.Ok? ==> forall kv :: kv in r.value <==> kv in items && kv.0 != k
    ensures r.Ok? ==> forall k' :: k' in KeysOf(r.value) <==> k' in KeysOf(items) && k' != k
    ensures r.Ok? && Gui.LexIncreasing(KeysOf(items)) ==>
              Gui.LexIncreasing(KeysOf(r.value)) && |r.value| == |items| - 1
  {
    WithoutKeys(items, k);
    if Gui.LexIncreasing(KeysOf(items)) then
      WithoutOrdered(items, k);
      if k in KeysOf(items) then Ok(Without(items, k)) else Err(MissingKey)
    else
      if k in KeysOf(items) then Ok(Without(items, k)) else Err(MissingKey)
  }

  /** The default features_state: dict.fromkeys(rc_pairs(6, 7), True), then the key
      (s, 0) deleted for s in 1..5. The result holds the 37 default keys, each
      mapped to True, in row-major order. */
  method DefaultFeaturesState() returns (state: seq<(Gui.Key, bool)>)
    ensures forall k :: k in KeysOf(state) <==> DefaultFeature(k)
    ensures forall i :: 0 <= i < |state| ==> state[i].1
    ensures Gui.LexIncreasing(KeysOf(state))
    ensures |state| == 37
  {
    var pairs := Gui.RcPairs(FilterCount, ScaleCount);
    state := seq(|pairs|, i requires 0 <= i < |pairs| => (pairs[i], true));
    assert KeysOf(state) == pairs;
    var s := 1;
    while s < FilterCount
      invariant 1 <= s <= FilterCount
      invariant forall k :: k in KeysOf(state) <==>
                  0 <= k.0 < FilterCount && 0 <= k.1 < ScaleCount && !(1 <= k.0 < s && k.1 == 0)
      invariant forall i :: 0 <= i < |state| ==> state[i].1
      invariant Gui.LexIncreasing(KeysOf(state))
      invariant |state| == 42 - (s - 1)
    {
      var key: Gui.Key := (s, 0);
      assert key in KeysOf(state);
      var r := DelKey(state, key);
      var old_state := state;
      state := r.value;
      forall i | 0 <= i < |state|
        ensures state[i].1
      {
        assert state[i] in state;
        var j :| 0 <= j < |old_state| && old_state[j] == state[i];
      }
      s := s + 1;
    }
  }

  /** The row labels of the feature dialog: filter_names of filter_list, in order. */
  const FilterNames: seq<string> := ["Gaussian Smoothing", "Laplacian of Gaussian",
    "Gaussian Gradient Magnitude", "Difference of Gaussians", "Structure Tensor Eigenvalues",
    "Hessian of Gaussian Eigenvalues"]

  /** The column labels of the feature dialog: str of every scale. */
  const ScaleLabels: seq<string> := ["0.3", "0.7", "1.0", "1.6", "3.5", "5.0", "10.0"]

  /** The mapping of items whose values are all True holds their keys, each mapped to True. */
  lemma {:induction false} MapOfAllTrue(items: seq<(Gui.Key, bool)>)
    requires forall i :: 0 <= i < |items| ==> items[i].1
    ensures forall k :: k in Gui.MapOf(items) <==> k in KeysOf(items)
    ensures forall k :: k in Gui.MapOf(items) ==> Gui.MapOf(items)[k]
    decreases |items|
  {
    if items != [] {
      var n := |items| - 1;
      MapOfAllTrue(items[..n]);
      assert KeysOf(items) == KeysOf(items[..n]) + [items[n].0];
    }
  }

  /** The keys of a default state lie in the dialog's table. */
  lemma DefaultStateInTable(state: seq<(Gui.Key, bool)>)
    requires forall k :: k in KeysOf(state) <==> DefaultFeature(k)
    ensures forall i :: 0 <= i < |state| ==> Gui.InRange(Gui.Empty(FilterCount, ScaleCount), state[i].0)
  {
    forall i | 0 <= i < |state|
      ensures Gui.InRange(Gui.Empty(FilterCount, ScaleCount), state[i].0)
    {
      assert KeysOf(state)[i] in KeysOf(state);
    }
  }

  /** Opening the empty table on a state gives the state's mapping. */
  lemma DefaultContents(state: seq<(Gui.Key, bool)>)
    requires forall i :: 0 <= i < |state| ==> Gui.InRange(Gui.Empty(FilterCount, ScaleCount), state[i].0)
    ensures Gui.Contents(Gui.AssignItems(Gui.Empty(FilterCount, ScaleCount), state)) == Gui.MapOf(state)
  {
    var t := Gui.Empty(FilterCount, ScaleCount);
    Gui.AssignItemsContents(t, state);
    assert Gui.Contents(t) + Gui.MapOf(state) == Gui.MapOf(state);
  }

  /** A table opened on a state of default keys, all True, shows exactly the default
      keys selected. */
  lemma DefaultDialogSelection(state: seq<(Gui.Key, bool)>)
    requires forall k :: k in KeysOf(state) <==> DefaultFeature(k)
    requires forall i :: 0 <= i < |state| ==> state[i].1
    ensures forall i :: 0 <= i < |state| ==> Gui.InRange(Gui.Empty(FilterCount, ScaleCount), state[i].0)
    ensures forall k :: Gui.Checked(Gui.AssignItems(Gui.Empty(FilterCount, ScaleCount), state), k) <==> DefaultFeature(k)
  {
    DefaultStateInTable(state);
    var t' := Gui.AssignItems(Gui.Empty(FilterCount, ScaleCount), state);
    var m := Gui.MapOf(state);
    DefaultContents(state);
    MapOfAllTrue(state);
    forall k
      ensures Gui.Checked(t', k) <==> DefaultFeature(k)
    {
      assert Gui.Checked(t', k) <==> k in Gui.CheckedKeys(t');
      assert k in Gui.CheckedKeys(t') <==> k in m && m[k];
    }
  }

  /** The feature dialog of the widget: opened on the default state, it shows the 37
      default keys selected and its OK button enabled. */
  method OpenFeaturesDialog() returns (r: Result<Gui.CheckboxTableDialog>)
    ensures r.Ok? && fresh(r.value)
    ensures r.Ok? ==> forall k :: k in r.value.selected <==> DefaultFeature(k)
    ensures r.Ok? ==> r.value.okEnabled
  {
    var state := DefaultFeaturesState();
    DefaultDialogSelection(state);
    r := Gui.CheckboxTableDialog.Open(FilterNames, ScaleLabels, state);
    assert (0, 0) in r.value.selected;
  }

  /** Python sequence indexing: a negative index counts from the end; anything else
      outside the sequence raises IndexError. */
  function PyIndex(i: int, n: nat): (r: Result<nat>)
    ensures r.Ok? <==> -(n as int) <= i < n
    ensures r.Ok? ==> r.value < n && (i >= 0 ==> r.value == i) && (i < 0 ==> r.value == i + n)
    ensures r.Err? ==> r.error == IndexOutOfRange
  {
    if 0 <= i < n then Ok(i)
    else if -(n as int) <= i < 0 then Ok(i + n)
    else Err(IndexOutOfRange)
  }

  /** filter_list[row](scale_list[col]) for one selected key. */
  function FilterFor(k: Gui.Key): (r: Result<Filters.Filter>)
    ensures r.Ok? <==> PyIndex(k.0, FilterCount).Ok? && PyIndex(k.1, ScaleCount).Ok?
    ensures r.Ok? ==> r.value == MakeFilter(PyIndex(k.0, FilterCount).value, ScaleList[PyIndex(k.1, ScaleCount).value])
  {
    match PyIndex(k.0, FilterCount)
    case Err(e) => Err(e)
    case Ok(row) =>
      match PyIndex(k.1, ScaleCount)
      case Err(e) => Err(e)
      case Ok(col) => Ok(MakeFilter(row, ScaleList[col]))
  }

  /** tuple(filter_list[row](scale_list[col]) for row, col in ks): the first key that
      cannot be indexed raises. */
  function FiltersFor(ks: seq<Gui.Key>): (r: Result<seq<Filters.Filter>>)
    ensures r.Ok? <==> forall i :: 0 <= i < |ks| ==> FilterFor(ks[i]).Ok?
    ensures r.Ok? ==> |r.value| == |ks| && forall i :: 0 <= i < |ks| ==> FilterFor(ks[i]) == Ok(r.value[i])
  {
    if ks == [] then Ok([])
    else
      match FilterFor(ks[0])
      case Err(e) => Err(e)
      case Ok(f) =>
        match FiltersFor(ks[1..])
        case Err(e) =>
          assert !FilterFor(ks[1..][FirstFailure(ks[1..])]).Ok?;
          Err(e)
        case Ok(fs) => Ok([f] + fs)
  }

  /** The index of a key of ks that cannot be indexed, when there is one. */
  function FirstFailure(ks: seq<Gui.Key>): (i: nat)
    requires exists i :: 0 <= i < |ks| && !FilterFor(ks[i]).Ok?
    ensures i < |ks| && !FilterFor(ks[i]).Ok?
  {
    if !FilterFor(ks[0]).Ok? then 0
    else
      assert exists i :: 0 <= i < |ks[1..]| && !FilterFor(ks[1..][i]).Ok? by {
        var i :| 0 <= i < |ks| && !FilterFor(ks[i]).Ok?;
        assert ks[1..][i - 1] == ks[i];
      }
      FirstFailure(ks[1..]) + 1
  }

  lemma LexLessTotal(a: Gui.Key, b: Gui.Key)
    ensures a == b || Gui.LexLess(a, b) || Gui.LexLess(b, a)
  {
  }

  /** Every non-empty set of keys has a lexicographically least element. */
  lemma {:induction false} MinExists(s: set<Gui.Key>)
    requires s != {}
    ensures exists m :: m in s && forall k :: k in s && k != m ==> Gui.LexLess(m, k)
    decreases |s|
  {
    var x :| x in s;
    if s != {x} {
      var rest := s - {x};
      MinExists(rest);
      var m :| m in rest && forall k :: k in rest && k != m ==> Gui.LexLess(m, k);
      LexLessTotal(x, m);
      if Gui.LexLess(x, m) {
        forall k | k in s && k != x
          ensures Gui.LexLess(x, k)
        {
          if k != m {
            Gui.LexLessTrans(x, m, k);
          }
        }
      } else {
        assert forall k :: k in s && k != m ==> Gui.LexLess(m, k);
      }
    }
  }

  /** The lexicographically least key of a non-empty set. */
  function LexMin(s: set<Gui.Key>): (m: Gui.Key)
    requires s != {}
    ensures m in s && forall k :: k in s && k != m ==> Gui.LexLess(m, k)
  {
    MinExists(s);
    var m :| m in s && forall k :: k in s && k != m ==> Gui.LexLess(m, k);
    m
  }

  /** sorted(s) for a set of (row, column) tuples: its keys in lexicographic order. */
  function SortedKeys(s: set<Gui.Key>): (r: seq<Gui.Key>)
    ensures |r| == |s|
    ensures forall k :: k in r <==> k in s
    ensures Gui.LexIncreasing(r)
    decreases |s|
  {
    if s == {} then []
    else
      var m := LexMin(s);
      var rest := SortedKeys(s - {m});
      assert forall k :: k in rest ==> Gui.LexLess(m, k);
      [m] + rest
  }

  /** The FilterSet of _on_run_clicked: one filter per selected key, in sorted key order. */
  function BuildFilterSet(selected: set<Gui.Key>): (r: Result<Filters.FilterSet>)
    ensures r.Ok? <==> forall k :: k in selected ==> FilterFor(k).Ok?
    ensures r.Ok? ==> |r.value.filters| == |selected|
    ensures r.Ok? ==> forall i :: 0 <= i < |selected| ==> FilterFor(SortedKeys(selected)[i]) == Ok(r.value.filters[i])
  {
    var ks := SortedKeys(selected);
    match FiltersFor(ks)
    case Err(e) =>
      var i :| 0 <= i < |ks| && !FilterFor(ks[i]).Ok?;
      assert ks[i] in selected;
      Err(e)
    case Ok(fs) => Ok(Filters.FilterSet(fs))
  }

  /** A key of the dialog's table. */
  predicate InTable(k: Gui.Key)
  {
    0 <= k.0 < FilterCount && 0 <= k.1 < ScaleCount
  }

  /** The i-th filter of the bank is the one of the i-th selected key in sorted order. */
  lemma BankAt(selected: set<Gui.Key>, i: nat)
    requires forall k :: k in selected ==> InTable(k)
    requires i < |selected|
    ensures BuildFilterSet(selected).Ok?
    ensures InTable(SortedKeys(selected)[i])
    ensures BuildFilterSet(selected).value.filters[i]
         == MakeFilter(SortedKeys(selected)[i].0, ScaleList[SortedKeys(selected)[i].1])
  {
    assert SortedKeys(selected)[i] in selected;
  }

  /** The filter bank for a selection of table keys lists the filters grouped by
      class in filter_list order, and by ascending scale within a class. */
  lemma BankGrouped(selected: set<Gui.Key>)
    requires forall k :: k in selected ==> InTable(k)
    ensures BuildFilterSet(selected).Ok?
    ensures var fs := BuildFilterSet(selected).value.filters;
            forall i, j :: 0 <= i < j < |fs| ==>
              KindIndex(fs[i]) < KindIndex(fs[j]) ||
              (KindIndex(fs[i]) == KindIndex(fs[j]) && fs[i].scale < fs[j].scale)
  {
    var ks := SortedKeys(selected);
    var fs := BuildFilterSet(selected).value.filters;
    forall i, j | 0 <= i < j < |fs|
      ensures KindIndex(fs[i]) < KindIndex(fs[j]) ||
              (KindIndex(fs[i]) == KindIndex(fs[j]) && fs[i].scale < fs[j].scale)
    {
      BankAt(selected, i);
      BankAt(selected, j);
      assert Gui.LexLess(ks[i], ks[j]);
      if ks[i].0 == ks[j].0 {
        ScaleListAscending(ks[i].1, ks[j].1);
      }
    }
  }

  /** Distinct scale indices name distinct scales. */
  lemma ScaleIndexInjective(a: nat, b: nat)
    requires a < ScaleCount && b < ScaleCount && ScaleList[a] == ScaleList[b]
    ensures a == b
  {
    if a < b {
      ScaleListAscending(a, b);
    } else if b < a {
      ScaleListAscending(b, a);
    }
  }

  /** The filter bank for a selection of table keys holds exactly the filters of the
      selected keys. */
  lemma BankMembers(selected: set<Gui.Key>, k: Gui.Key)
    requires forall k :: k in selected ==> InTable(k)
    requires InTable(k)
    ensures BuildFilterSet(selected).Ok?
    ensures k in selected <==> MakeFilter(k.0, ScaleList[k.1]) in BuildFilterSet(selected).value.filters
  {
    var ks := SortedKeys(selected);
    var fs := BuildFilterSet(selected).value.filters;
    if k in selected {
      var i :| 0 <= i < |ks| && ks[i] == k;
      BankAt(selected, i);
      assert fs[i] in fs;
    }
    if MakeFilter(k.0, ScaleList[k.1]) in fs {
      var i :| 0 <= i < |fs| && fs[i] == MakeFilter(k.0, ScaleList[k.1]);
      BankAt(selected, i);
      var key := ks[i];
      MakeFilterInjective(key.0, ScaleList[key.1], k.0, ScaleList[k.1]);
      ScaleIndexInjective(key.1, k.1);
      assert key == k && key in selected;
    }
  }

  /** all(...) over a sequence of truth values. */
  function All(bs: seq<bool>): (b: bool)
    ensures b <==> forall i :: 0 <= i < |bs| ==> bs[i]
  {
    if bs == [] then true else bs[0] && All(bs[1..])
  }

  /** any(...) over a sequence of truth values. */
  function Any(bs: seq<bool>): (b: bool)
    ensures b <==> exists i :: 0 <= i < |bs| && bs[i]
  {
    if bs == [] then false else bs[0] || Any(bs[1..])
  }

  /** _update_widgets: Run is enabled when every layer combo has a layer chosen (a chosen
      layer is truthy, no choice is None) and any output button is checked; that is,
      exactly when both an image and a labels layer are chosen and at least one output
      type is checked. */
  function RunEnabled<I, B>(image: Option<I>, labels: Option<B>, segmentation: bool, probabilities: bool): (enabled: bool)
    ensures enabled <==> image.Some? && labels.Some? && (segmentation || probabilities)
  {
    var combos, buttons := [image.Some?, labels.Some?], [segmentation, probabilities];
    assert combos[0] == image.Some? && combos[1] == labels.Some?;
    assert buttons[0] == segmentation && buttons[1] == probabilities;
    All(combos) && Any(buttons)
  }

  /** astype(numpy.uint8) + 1 on one class index: truncation to a byte, then an
      increment that wraps at 256. */
  function ByteLabel(c: int): int
  {
    ((c % 256) + 1) % 256
  }

  /** Below 255 the label is the class index plus one; 255 wraps to 0. */
  lemma ByteLabelValues(c: int)
    ensures 0 <= c < 255 ==> ByteLabel(c) == c + 1
    ensures ByteLabel(255) == 0
  {
  }

  /** numpy.argmax(proba, axis=0).astype(numpy.uint8) + 1: the class index of the first
      maximal probability, truncated to a byte, plus one in byte arithmetic. */
  function Segmentation(proba: NdArray<real>): (r: Result<NdArray<int>>)
    ensures r.Ok? <==> |proba.shape| == 0 || proba.shape[0] > 0
    ensures r.Err? ==> r.error == EmptyArgmax
    ensures r.Ok? && |proba.shape| > 0 ==> r.value.shape == proba.shape[1..]
  {
    match ArgMaxFirstAxis(proba)
    case Err(e) => Err(e)
    case Ok(a) => Ok(Map(ByteLabel, a))
  }

  /** A zero-dimensional input has argmax 0 along axis 0, so its label is the scalar 1. */
  lemma SegmentationScalar(proba: NdArray<real>)
    requires |proba.shape| == 0
    ensures Segmentation(proba) == Ok(ArrayOf([], [1]))
  {
    var a := ArgMaxFirstAxis(proba).value;
    assert Map(ByteLabel, a).data == [1];
  }

  /** The label at pixel p is ByteLabel of the first most probable class there. */
  lemma SegmentationAt(proba: NdArray<real>, p: Index)
    requires |proba.shape| > 0 && proba.shape[0] > 0 && InBounds(proba.shape[1..], p)
    ensures Segmentation(proba).Ok? && InBounds(Segmentation(proba).value.shape, p)
    ensures At(Segmentation(proba).value, p) == ByteLabel(FirstArgMax(Column(proba, p)))
  {
    ArgMaxFirstAxisAt(proba, p);
    var a := ArgMaxFirstAxis(proba).value;
    assert Segmentation(proba).value == Map(ByteLabel, a);
  }

  /** With fewer than 256 classes the label at every pixel is one more than the index
      of its first most probable class, so it lies in 1..nclasses. */
  lemma SegmentationLabels(proba: NdArray<real>, p: Index)
    requires |proba.shape| > 0 && 0 < proba.shape[0] < 256 && InBounds(proba.shape[1..], p)
    ensures Segmentation(proba).Ok? && InBounds(Segmentation(proba).value.shape, p)
    ensures At(Segmentation(proba).value, p) == FirstArgMax(Column(proba, p)) + 1
    ensures 1 <= At(Segmentation(proba).value, p) <= proba.shape[0]
  {
    SegmentationAt(proba, p);
    ByteLabelValues(FirstArgMax(Column(proba, p)));
  }

  /** The byte arithmetic wraps: a pixel whose first most probable class has index 255
      gets label 0. */
  lemma SegmentationWraps(proba: NdArray<real>, p: Index)
    requires |proba.shape| > 0 && proba.shape[0] > 0 && InBounds(proba.shape[1..], p)
    requires FirstArgMax(Column(proba, p)) == 255
    ensures Segmentation(proba).Ok? && InBounds(Segmentation(proba).value.shape, p)
    ensures At(Segmentation(proba).value, p) == 0
  {
    SegmentationAt(proba, p);
    ByteLabelValues(255);
  }

  /** The viewer's two output layers, absent until first written. */
  datatype Outputs = Outputs(segmentation: Option<NdArray<int>>, probabilities: Option<NdArray<real>>)

  /** _update_output_layers: the segmentation layer is written iff Segmentation is
      checked and the probability layer iff Probabilities is checked, both from the
      same result; a failing segmentation stops before the probabilities. */
  function UpdateOutputLayers(segChecked: bool, probaChecked: bool, proba: NdArray<real>, layers: Outputs): (r: Result<Outputs>)
    ensures r.Ok? <==> !segChecked || Segmentation(proba).Ok?
    ensures r.Ok? ==> (r.value.segmentation != layers.segmentation ==> segChecked)
    ensures r.Ok? ==> (r.value.probabilities != layers.probabilities ==> probaChecked)
    ensures r.Ok? && segChecked ==> r.value.segmentation == Some(Segmentation(proba).value)
    ensures r.Ok? && probaChecked ==> r.value.probabilities == Some(proba)
  {
    var seg :=
      if segChecked then
        match Segmentation(proba)
        case Err(e) => Err(e)
        case Ok(s) => Ok(Some(s))
      else Ok(layers.segmentation);
    match seg
    case Err(e) => Err(e)
    case Ok(s) => Ok(Outputs(s, if probaChecked then Some(proba) else layers.probabilities))
  }

  /** _pixel_classification: features of the image, training on the labelled pixels,
      class probabilities per pixel, and the class axis moved to the front. The
      estimator trains in place in the source; here fit returns the trained estimator
      and the adapter holds it from then on. */
  function PixelClassification(image: NdArray<real>, labels: NdArray<int>, features: Filters.FilterSet,
                               lib: Filters.Library, estimator: Classifier.Estimator): (r: Result<NdArray<real>>)
    ensures r.Ok? ==> |r.value.shape| == |image.shape| + 1 && r.value.shape[1..] == image.shape
  {
    match features.Transform(image, lib)
    case Err(e) => Err(e)
    case Ok(fm) =>
      var y := Classifier.FromDense(labels);
      match Classifier.NDSparseClassifier(estimator).Fit(fm, y)
      case Err(e) => Err(e)
      case Ok(trained) =>
        match Classifier.NDSparseClassifier(trained).PredictProbaPerPixel(fm)
        case Err(e) => Err(e)
        case Ok(p) =>
          var r := MoveLastAxisFirst(p);
          assert r.Ok? ==> r.value.shape[1..] == Init(p.shape);
          r
  }

  /** _pixel_classification as written, with the Classifier module standing for the
      classifier the plugin imports: the probabilities come from predict_proba, which
      reshapes the per-pixel class vectors to the image shape. */
  function PixelClassificationAsWritten(image: NdArray<real>, labels: NdArray<int>, features: Filters.FilterSet,
                                        lib: Filters.Library, estimator: Classifier.Estimator): (r: Result<NdArray<real>>)
    ensures r.Ok? ==> |image.shape| > 0 && r.value.shape == [Last(image.shape)] + Init(image.shape)
  {
    match features.Transform(image, lib)
    case Err(e) => Err(e)
    case Ok(fm) =>
      var y := Classifier.FromDense(labels);
      match Classifier.NDSparseClassifier(estimator).Fit(fm, y)
      case Err(e) => Err(e)
      case Ok(trained) =>
        match Classifier.NDSparseClassifier(trained).PredictProba(fm)
        case Err(e) => Err(e)
        case Ok(p) =>
          assert p.shape == image.shape;
          var r := MoveLastAxisFirst(p);
          assert r.Ok? ==> r.value.shape[1..] == Init(p.shape);
          r
  }

  /** The trained estimator of a run: the estimator's fit on the labelled pixels. */
  function Trained(image: NdArray<real>, labels: NdArray<int>, features: Filters.FilterSet,
                   lib: Filters.Library, estimator: Classifier.Estimator): Result<Classifier.Estimator>
  {
    match features.Transform(image, lib)
    case Err(e) => Err(e)
    case Ok(fm) => Classifier.NDSparseClassifier(estimator).Fit(fm, Classifier.FromDense(labels))
  }

  /** Where the trained estimator gives k class probabilities g(v) for every feature
      vector v, the result holds at [j] + p the probability of class j at pixel p,
      computed from the feature vector of p. */
  lemma PixelClassificationAt(image: NdArray<real>, labels: NdArray<int>, features: Filters.FilterSet,
                              lib: Filters.Library, estimator: Classifier.Estimator,
                              g: seq<real> -> seq<real>, k: nat, p: Index, j: nat)
    requires features.Transform(image, lib).Ok?
    requires Last(features.Transform(image, lib).value.shape) > 0 && Size(image.shape) > 0
    requires Trained(image, labels, features, lib, estimator).Ok?
    requires Classifier.RowWiseVector(Trained(image, labels, features, lib, estimator).value.predictProba, g, k)
    requires InBounds(image.shape, p) && j < k
    ensures PixelClassification(image, labels, features, lib, estimator).Ok?
    ensures InBounds(PixelClassification(image, labels, features, lib, estimator).value.shape, [j] + p)
    ensures At(PixelClassification(image, labels, features, lib, estimator).value, [j] + p)
         == g(Vector(features.Transform(image, lib).value, p))[j]
  {
    var fm := features.Transform(image, lib).value;
    var trained := Trained(image, labels, features, lib, estimator).value;
    assert Init(fm.shape) == image.shape;
    Classifier.PredictPerPixelPointwise(trained.predictProba, g, k, fm, p);
    var proba := Classifier.PredictPerPixelWith(trained.predictProba, fm).value;
    assert Classifier.NDSparseClassifier(trained).PredictProbaPerPixel(fm) == Ok(proba);
    assert Init(proba.shape) == image.shape && Last(proba.shape) == k;
    MoveLastAxisFirstAt(proba, p, j);
    VectorAt(proba, p, j);
  }

  /** With the Classifier module as the imported classifier, a run as written fails on
      every non-empty image whenever the trained estimator yields other than exactly one
      probability per pixel, that is, for any classifier of two or more classes. */
  lemma PixelClassificationAsWrittenFails(image: NdArray<real>, labels: NdArray<int>, features: Filters.FilterSet,
                                          lib: Filters.Library, estimator: Classifier.Estimator,
                                          g: seq<real> -> seq<real>, k: nat)
    requires features.Transform(image, lib).Ok?
    requires Last(features.Transform(image, lib).value.shape) > 0 && Size(image.shape) > 0
    requires Trained(image, labels, features, lib, estimator).Ok?
    requires Classifier.RowWiseVector(Trained(image, labels, features, lib, estimator).value.predictProba, g, k)
    requires k != 1
    ensures PixelClassificationAsWritten(image, labels, features, lib, estimator) == Err(BadReshape)
  {
    var fm := features.Transform(image, lib).value;
    var trained := Trained(image, labels, features, lib, estimator).value;
    assert Init(fm.shape) == image.shape;
    Classifier.PredictWithRejectsClassVectors(trained.predictProba, g, k, fm);
  }

  /** A run clicked while Run is enabled classifies the chosen image with the chosen
      labels; when it succeeds with at least one class, updating the output layers
      succeeds and writes the segmentation or the probabilities of that run. On a viewer
      without output layers yet, a layer is written exactly when Run was enabled. */
  lemma RunReachesOutput(image: Option<NdArray<real>>, labels: Option<NdArray<int>>, segChecked: bool, probaChecked: bool,
                         features: Filters.FilterSet, lib: Filters.Library, estimator: Classifier.Estimator, layers: Outputs)
    requires image.Some? && labels.Some?
    requires PixelClassification(image.value, labels.value, features, lib, estimator).Ok?
    requires PixelClassification(image.value, labels.value, features, lib, estimator).value.shape[0] > 0
    ensures var proba := PixelClassification(image.value, labels.value, features, lib, estimator).value;
            UpdateOutputLayers(segChecked, probaChecked, proba, layers).Ok?
    ensures var proba := PixelClassification(image.value, labels.value, features, lib, estimator).value;
            var out := UpdateOutputLayers(segChecked, probaChecked, proba, layers).value;
            RunEnabled(image, labels, segChecked, probaChecked) ==>
              out.segmentation == Some(Segmentation(proba).value) || out.probabilities == Some(proba)
    ensures var proba := PixelClassification(image.value, labels.value, features, lib, estimator).value;
            var out := UpdateOutputLayers(segChecked, probaChecked, proba, layers).value;
            layers == Outputs(None, None) ==>
              (RunEnabled(image, labels, segChecked, probaChecked) <==> out.segmentation.Some? || out.probabilities.Some?)
  {
  }
}
