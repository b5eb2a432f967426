/** The checkbox grid behind the feature-selection dialog: rc_pairs, the
    ModelDict mapping from (row, column) keys to check states over a grid of
    cells (a disabled cell is a missing key), and the dialog logic on top of it
    (header toggling, select all / none, the OK-button predicate and the
    selection taken on accept). The grid's value is a Table; ModelDict keeps
    its cells in a two-dimensional array and each of its methods is tied to a
    function on Tables. */
module Gui {
  import opened Failures

  /** A (row, column) key. */
  type Key = (int, int)

  predicate LexLess(a: Key, b: Key)
  {
    a.0 < b.0 || (a.0 == b.0 && a.1 < b.1)
  }

  predicate Increasing(s: seq<int>)
  {
    forall i, j :: 0 <= i < j < |s| ==> s[i] < s[j]
  }

  /** Strictly increasing in row-major order; in particular no key appears twice. */
  predicate LexIncreasing(ks: seq<Key>)
  {
    forall i, j :: 0 <= i < j < |ks| ==> LexLess(ks[i], ks[j])
  }

  lemma RangeMembers(n: nat, r: seq<int>)
    requires |r| == n && forall i :: 0 <= i < n ==> r[i] == i
    ensures forall x :: x in r <==> 0 <= x < n
  {
    forall x | x in r
      ensures 0 <= x < n
    {
      var i :| 0 <= i < n && r[i] == x;
    }
    forall x | 0 <= x < n
      ensures x in r
    {
      assert r[x] == x;
    }
  }

  /** range(n) */
  function Range(n: nat): (r: seq<int>)
    ensures |r| == n && forall i :: 0 <= i < n ==> r[i] == i
    ensures forall x :: x in r <==> 0 <= x < n
    ensures Increasing(r)
  {
    var r := seq(n, i => i);
    RangeMembers(n, r);
    r
  }

  function RowOf(r: int, cols: seq<int>): (ks: seq<Key>)
    ensures |ks| == |cols|
    ensures forall i :: 0 <= i < |cols| ==> ks[i] == (r, cols[i])
  {
    seq(|cols|, i requires 0 <= i < |cols| => (r, cols[i]))
  }

  lemma MulSucc(a: nat, b: nat)
    ensures (a + 1) * b == a * b + b
  {
  }

  /** ((r, c) for r in rows for c in cols) */
  function Product(rows: seq<int>, cols: seq<int>): (ks: seq<Key>)
    ensures |ks| == |rows| * |cols|
    ensures forall k :: k in ks <==> k.0 in rows && k.1 in cols
    ensures Increasing(rows) && Increasing(cols) ==> LexIncreasing(ks)
    decreases |rows|
  {
    if rows == [] then []
    else
      var head := RowOf(rows[0], cols);
      var tail := Product(rows[1..], cols);
      MulSucc(|rows| - 1, |cols|);
      ProductSplit(rows, cols, head, tail);
      head + tail
  }

  lemma ProductSplit(rows: seq<int>, cols: seq<int>, head: seq<Key>, tail: seq<Key>)
    requires |rows| > 0 && head == RowOf(rows[0], cols)
    requires forall k :: k in tail <==> k.0 in rows[1..] && k.1 in cols
    requires Increasing(rows[1..]) && Increasing(cols) ==> LexIncreasing(tail)
    ensures forall k :: k in head + tail <==> k.0 in rows && k.1 in cols
    ensures Increasing(rows) && Increasing(cols) ==> LexIncreasing(head + tail)
  {
    assert rows == [rows[0]] + rows[1..];
    forall k: Key | k.0 in rows && k.1 in cols
      ensures k in head + tail
    {
      if k.0 == rows[0] {
        var i :| 0 <= i < |cols| && cols[i] == k.1;
        assert head[i] == k;
      } else {
        assert k.0 in rows[1..];
      }
    }
    if Increasing(rows) && Increasing(cols) {
      assert Increasing(rows[1..]);
      var ks := head + tail;
      forall i, j | 0 <= i < j < |ks|
        ensures LexLess(ks[i], ks[j])
      {
        if j < |head| {
        } else if i < |head| {
          assert ks[j] in tail;
          var m :| 0 <= m < |rows[1..]| && rows[1..][m] == ks[j].0;
          assert rows[m + 1] == ks[j].0;
        } else {
          assert ks[i] == tail[i - |head|] && ks[j] == tail[j - |head|];
        }
      }
    }
  }

  /** rc_pairs(n, m): every (r, c) with r < n and c < m, exactly once, in row-major
      order, n * m pairs in all. */
  function RcPairs(n: nat, m: nat): (ks: seq<Key>)
    ensures |ks| == n * m
    ensures forall k :: k in ks <==> 0 <= k.0 < n && 0 <= k.1 < m
    ensures LexIncreasing(ks)
  {
    Product(Range(n), Range(m))
  }

  /** The row-major order of rc_pairs is strict, so no pair is yielded twice. */
  lemma {:induction false} RcPairsDistinct(n: nat, m: nat, i: nat, j: nat)
    requires i < j < n * m
    ensures RcPairs(n, m)[i] != RcPairs(n, m)[j]
  {
  }

  /** A cell of the grid: an item's enabled flag and its check state. */
  datatype Cell = Cell(enabled: bool, checked: bool)

  /** The QStandardItemModel behind a ModelDict: rows × columns cells. */
  datatype TableValue = Table(rows: nat, columns: nat, cells: seq<seq<Cell>>)

  predicate Rectangular(t: TableValue)
  {
    |t.cells| == t.rows && forall r :: 0 <= r < t.rows ==> |t.cells[r]| == t.columns
  }

  type Table = t: TableValue | Rectangular(t) witness Table(0, 0, [])

  predicate InRange(t: Table, k: Key)
  {
    0 <= k.0 < t.rows && 0 <= k.1 < t.columns
  }

  function CellAt(t: Table, k: Key): Cell
    requires InRange(t, k)
  {
    t.cells[k.0][k.1]
  }

  predicate IsEnabled(t: Table, k: Key)
  {
    InRange(t, k) && CellAt(t, k).enabled
  }

  /** The key is enabled and its cell checked. */
  predicate Checked(t: Table, k: Key)
  {
    IsEnabled(t, k) && CellAt(t, k).checked
  }

  /** Two tables of the same size with the same cells are equal. */
  lemma TableExt(a: Table, b: Table)
    requires a.rows == b.rows && a.columns == b.columns
    requires forall k :: InRange(a, k) ==> CellAt(a, k) == CellAt(b, k)
    ensures a == b
  {
    forall r | 0 <= r < a.rows
      ensures a.cells[r] == b.cells[r]
    {
      forall c | 0 <= c < a.columns
        ensures a.cells[r][c] == b.cells[r][c]
      {
        assert InRange(a, (r, c));
      }
    }
  }

  /** The mapping a ModelDict stands for: its enabled cells and their check states. */
  function Contents(t: Table): (m: map<Key, bool>)
    ensures forall k :: k in m <==> IsEnabled(t, k)
    ensures forall k :: IsEnabled(t, k) ==> m[k] == CellAt(t, k).checked
  {
    map k | k in RcPairs(t.rows, t.columns) && CellAt(t, k).enabled :: CellAt(t, k).checked
  }

  /** A fresh ModelDict: every cell disabled and unchecked. */
  function Empty(rows: nat, columns: nat): (t: Table)
    ensures t.rows == rows && t.columns == columns
    ensures Contents(t) == map[]
  {
    var t: Table := Table(rows, columns, seq(rows, r => seq(columns, c => Cell(false, false))));
    assert forall k :: InRange(t, k) ==> !CellAt(t, k).enabled;
    t
  }

  /** ModelDict.__getitem__: the check state of an enabled cell. A disabled cell
      raises KeyError, and a key outside the grid finds no item. */
  function GetItem(t: Table, k: Key): (r: Result<bool>)
    ensures r.Ok? <==> k in Contents(t)
    ensures r.Ok? ==> r.value == Contents(t)[k]
    ensures r.Err? ==> r.error == (if InRange(t, k) then MissingKey else NoItem)
  {
    if !InRange(t, k) then Err(NoItem)
    else if CellAt(t, k).enabled then Ok(CellAt(t, k).checked)
    else Err(MissingKey)
  }

  /** The cell update of ModelDict.__setitem__: enabled and checkable, checked iff v. */
  function Assign(t: Table, k: Key, v: bool): (t': Table)
    requires InRange(t, k)
    ensures t'.rows == t.rows && t'.columns == t.columns
    ensures CellAt(t', k) == Cell(true, v)
    ensures forall k' :: InRange(t, k') && k' != k ==> CellAt(t', k') == CellAt(t, k')
  {
    Table(t.rows, t.columns, t.cells[k.0 := t.cells[k.0][k.1 := Cell(true, v)]])
  }

  /** The cell update of ModelDict.__delitem__: no flags; the check state is kept. */
  function Disable(t: Table, k: Key): (t': Table)
    requires InRange(t, k)
    ensures t'.rows == t.rows && t'.columns == t.columns
    ensures CellAt(t', k) == Cell(false, CellAt(t, k).checked)
    ensures forall k' :: InRange(t, k') && k' != k ==> CellAt(t', k') == CellAt(t, k')
  {
    Table(t.rows, t.columns, t.cells[k.0 := t.cells[k.0][k.1 := Cell(false, CellAt(t, k).checked)]])
  }

  /** Contents is the one map with the enabled keys and their check states. */
  lemma ContentsChar(t: Table, m: map<Key, bool>)
    requires forall k :: k in m <==> IsEnabled(t, k)
    requires forall k :: IsEnabled(t, k) ==> m[k] == CellAt(t, k).checked
    ensures Contents(t) == m
  {
  }

  /** Setting a key behaves as a mapping: the key now maps to v, every other key is as before. */
  lemma AssignContents(t: Table, k: Key, v: bool)
    requires InRange(t, k)
    ensures Contents(Assign(t, k, v)) == Contents(t)[k := v]
    ensures GetItem(Assign(t, k, v), k) == Ok(v)
  {
    var t', m := Assign(t, k, v), Contents(t)[k := v];
    forall k' | k' != k && InRange(t, k')
      ensures IsEnabled(t', k') == IsEnabled(t, k') && (IsEnabled(t, k') ==> m[k'] == CellAt(t', k').checked)
    {
      assert CellAt(t', k') == CellAt(t, k');
    }
    ContentsChar(t', m);
  }

  /** Deleting a key removes it, and only it, from the mapping; reading it then raises KeyError. */
  lemma DisableContents(t: Table, k: Key)
    requires InRange(t, k)
    ensures Contents(Disable(t, k)) == Contents(t) - {k}
    ensures GetItem(Disable(t, k), k) == Err(MissingKey)
  {
    var t', m := Disable(t, k), Contents(t) - {k};
    forall k' | k' != k && InRange(t, k')
      ensures IsEnabled(t', k') == IsEnabled(t, k') && (IsEnabled(t, k') ==> m[k'] == CellAt(t', k').checked)
    {
      assert CellAt(t', k') == CellAt(t, k');
    }
    ContentsChar(t', m);
  }

  /** The lines an iteration runs over: all of range(count), or the one given. */
  function Lines(sel: Option<int>, count: nat): (r: seq<int>)
    ensures Increasing(r)
  {
    if sel.None? then Range(count) else [sel.value]
  }

  /** The key lies in the given row (if any) and the given column (if any). */
  predicate InSelection(row: Option<int>, column: Option<int>, k: Key)
  {
    (row.None? || k.0 == row.value) && (column.None? || k.1 == column.value)
  }

  /** The enabled keys among ks, in the order of ks. */
  function EnabledAmong(t: Table, ks: seq<Key>): (r: seq<Key>)
    requires forall k :: k in ks ==> InRange(t, k)
    ensures forall k :: k in r <==> k in ks && CellAt(t, k).enabled
    ensures LexIncreasing(ks) ==> LexIncreasing(r)
  {
    if ks == [] then []
    else
      var rest := EnabledAmong(t, ks[1..]);
      assert forall k :: k in ks[1..] ==> k in ks;
      if CellAt(t, ks[0]).enabled then
        assert LexIncreasing(ks) ==> forall k :: k in ks[1..] ==> LexLess(ks[0], k);
        [ks[0]] + rest
      else rest
  }

  lemma LexLessTrans(a: Key, b: Key, c: Key)
    requires LexLess(a, b) && LexLess(b, c)
    ensures LexLess(a, c)
  {
  }

  /** The iteration of ModelDict.__iter__(row=row, column=column) fails exactly when a
      given row or column lies outside the grid and there is something to pair it with. */
  lemma IterDefined(t: Table, row: Option<int>, column: Option<int>)
    ensures (forall k :: k in Product(Lines(row, t.rows), Lines(column, t.columns)) ==> InRange(t, k))
        <==> ((row.Some? && (column.Some? || t.columns > 0) ==> 0 <= row.value < t.rows) &&
              (column.Some? && (row.Some? || t.rows > 0) ==> 0 <= column.value < t.columns))
  {
    var rs, cs := Lines(row, t.rows), Lines(column, t.columns);
    if row.Some? && (column.Some? || t.columns > 0) && !(0 <= row.value < t.rows) {
      assert cs[0] in cs;
      assert (row.value, cs[0]) in Product(rs, cs);
    }
    if column.Some? && (row.Some? || t.rows > 0) && !(0 <= column.value < t.columns) {
      assert rs[0] in rs;
      assert (rs[0], column.value) in Product(rs, cs);
    }
  }

  /** ModelDict.__iter__(row=row, column=column): the enabled keys of the selection, in
      row-major order. A row or column outside the grid finds no item. */
  function Iter(t: Table, row: Option<int>, column: Option<int>): (r: Result<seq<Key>>)
    ensures r.Ok? <==> ((row.Some? && (column.Some? || t.columns > 0) ==> 0 <= row.value < t.rows) &&
                        (column.Some? && (row.Some? || t.rows > 0) ==> 0 <= column.value < t.columns))
    ensures r.Ok? ==> forall k :: k in r.value <==> k in Contents(t) && InSelection(row, column, k)
    ensures r.Ok? ==> LexIncreasing(r.value)
    ensures r.Err? ==> r.error == NoItem
  {
    var ks := Product(Lines(row, t.rows), Lines(column, t.columns));
    IterDefined(t, row, column);
    if exists k :: k in ks && !InRange(t, k) then Err(NoItem)
    else Ok(EnabledAmong(t, ks))
  }

  lemma {:induction false} DistinctCard(ks: seq<Key>)
    requires LexIncreasing(ks)
    ensures |set k | k in ks| == |ks|
  {
    if ks != [] {
      DistinctCard(ks[1..]);
      assert (set k | k in ks) == {ks[0]} + (set k | k in ks[1..]);
      assert ks[0] !in (set k | k in ks[1..]);
    }
  }

  /** ModelDict.__len__: the number of keys the iteration yields, which is the number of
      enabled cells. */
  function Len(t: Table): (n: nat)
    ensures n == |Contents(t)|
  {
    var ks := Iter(t, None, None).value;
    DistinctCard(ks);
    assert (set k | k in ks) == Contents(t).Keys;
    |ks|
  }

  /** A fresh ModelDict is empty: iteration yields nothing and its length is 0. */
  lemma EmptyIter(rows: nat, columns: nat)
    ensures Iter(Empty(rows, columns), None, None) == Ok([])
    ensures Len(Empty(rows, columns)) == 0
  {
    var ks := Iter(Empty(rows, columns), None, None).value;
    assert |ks| == Len(Empty(rows, columns)) == 0;
  }

  /** Every key an iteration yields is an enabled cell. */
  lemma IterEnabled(t: Table, row: Option<int>, column: Option<int>)
    requires Iter(t, row, column).Ok?
    ensures forall k :: k in Iter(t, row, column).value ==> IsEnabled(t, k)
  {
  }

  /** all(values): every key of ks is checked. */
  function AllValues(t: Table, ks: seq<Key>): (b: bool)
    requires forall k :: k in ks ==> IsEnabled(t, k)
    ensures b <==> forall k :: k in ks ==> Checked(t, k)
  {
    if ks == [] then true
    else
      assert forall k :: k in ks[1..] ==> k in ks;
      assert IsEnabled(t, ks[0]);
      CellAt(t, ks[0]).checked && AllValues(t, ks[1..])
  }

  /** any(values): some key of ks is checked. */
  function AnyValue(t: Table, ks: seq<Key>): (b: bool)
    requires forall k :: k in ks ==> IsEnabled(t, k)
    ensures b <==> exists k :: k in ks && Checked(t, k)
  {
    if ks == [] then false
    else
      assert forall k :: k in ks[1..] ==> k in ks;
      assert IsEnabled(t, ks[0]);
      CellAt(t, ks[0]).checked || AnyValue(t, ks[1..])
  }

  /** The keys that are enabled and checked: set(k for k, v in items() if v). */
  function CheckedKeys(t: Table): (s: set<Key>)
    ensures forall k :: k in s <==> Checked(t, k)
  {
    set k | k in Contents(t) && Contents(t)[k]
  }

  /** CheckboxTableDialog._update_widgets's predicate: any(values()), which holds exactly
      when some key is selected. */
  function AnyChecked(t: Table): (b: bool)
    ensures b <==> CheckedKeys(t) != {}
  {
    AnyValue(t, Iter(t, None, None).value)
  }

  /** The cells after keys ks are all set to v, one after another. */
  function AssignAll(t: Table, ks: seq<Key>, v: bool): (t': Table)
    requires forall k :: k in ks ==> InRange(t, k)
    ensures t'.rows == t.rows && t'.columns == t.columns
    decreases |ks|
  {
    if ks == [] then t
    else
      assert forall k :: k in ks[..|ks| - 1] ==> k in ks;
      assert ks[|ks| - 1] in ks;
      assert InRange(t, ks[|ks| - 1]);
      Assign(AssignAll(t, ks[..|ks| - 1], v), ks[|ks| - 1], v)
  }

  lemma AssignAllStep(t: Table, ks: seq<Key>, i: nat, v: bool)
    requires forall k :: k in ks ==> InRange(t, k)
    requires i < |ks|
    ensures forall k :: k in ks[..i] ==> InRange(t, k)
    ensures InRange(AssignAll(t, ks[..i], v), ks[i])
    ensures AssignAll(t, ks[..i + 1], v) == Assign(AssignAll(t, ks[..i], v), ks[i], v)
  {
    assert forall k :: k in ks[..i] ==> k in ks;
    assert ks[i] in ks;
    assert InRange(t, ks[i]);
    assert ks[..i + 1][..i] == ks[..i];
  }

  lemma {:induction false} AssignAllAt(t: Table, ks: seq<Key>, v: bool, k: Key)
    requires forall k :: k in ks ==> InRange(t, k)
    requires InRange(t, k)
    ensures CellAt(AssignAll(t, ks, v), k) == if k in ks then Cell(true, v) else CellAt(t, k)
    decreases |ks|
  {
    if ks != [] {
      var init := ks[..|ks| - 1];
      assert forall k :: k in init ==> k in ks;
      AssignAllAt(t, init, v, k);
      assert ks == init + [ks[|ks| - 1]];
    }
  }

  /** The selection painted with v: every enabled cell of it becomes checked iff v. */
  function Paint(t: Table, row: Option<int>, column: Option<int>, v: bool): (t': Table)
    ensures t'.rows == t.rows && t'.columns == t.columns
    ensures forall k :: InRange(t, k) ==>
              CellAt(t', k) == if InSelection(row, column, k) && CellAt(t, k).enabled then Cell(true, v) else CellAt(t, k)
  {
    Table(t.rows, t.columns,
      seq(t.rows, r requires 0 <= r < t.rows =>
        seq(t.columns, c requires 0 <= c < t.columns =>
          if InSelection(row, column, (r, c)) && t.cells[r][c].enabled then Cell(true, v) else t.cells[r][c])))
  }

  /** Setting every key the iteration yields, one by one, paints the selection. */
  lemma AssignAllIsPaint(t: Table, row: Option<int>, column: Option<int>, v: bool)
    requires Iter(t, row, column).Ok?
    ensures forall k :: k in Iter(t, row, column).value ==> InRange(t, k)
    ensures AssignAll(t, Iter(t, row, column).value, v) == Paint(t, row, column, v)
  {
    var ks := Iter(t, row, column).value;
    var a, b := AssignAll(t, ks, v), Paint(t, row, column, v);
    forall k | InRange(a, k)
      ensures CellAt(a, k) == CellAt(b, k)
    {
      IterMember(t, row, column, k);
      AssignAllAt(t, ks, v, k);
    }
    TableExt(a, b);
  }

  /** A cell of the grid is iterated iff it lies in the selection and is enabled. */
  lemma IterMember(t: Table, row: Option<int>, column: Option<int>, k: Key)
    requires Iter(t, row, column).Ok? && InRange(t, k)
    ensures k in Iter(t, row, column).value <==> InSelection(row, column, k) && CellAt(t, k).enabled
  {
    assert k in Contents(t) <==> IsEnabled(t, k);
  }

  /** Painting keeps every cell's enabled flag, so the keys of every iteration stay the
      same; this is why iterating while setting the keys sees the keys of the start. */
  lemma PaintKeepsKeys(t: Table, row: Option<int>, column: Option<int>, v: bool, row': Option<int>, column': Option<int>)
    ensures Iter(Paint(t, row, column, v), row', column') == Iter(t, row', column')
  {
    var t' := Paint(t, row, column, v);
    forall k | InRange(t', k)
      ensures CellAt(t', k).enabled == CellAt(t, k).enabled
    {
    }
    IterSameFlags(t', t, row', column');
  }

  /** Setting enabled keys of the grid one after another keeps every cell's enabled
      flag, so after any number of the assignments every iteration still yields the
      keys it yielded at the start. */
  lemma AssignAllKeepsKeys(t: Table, ks: seq<Key>, v: bool, row: Option<int>, column: Option<int>)
    requires forall k :: k in ks ==> InRange(t, k) && CellAt(t, k).enabled
    ensures Iter(AssignAll(t, ks, v), row, column) == Iter(t, row, column)
  {
    var a := AssignAll(t, ks, v);
    assert a.rows == t.rows && a.columns == t.columns;
    forall k | InRange(a, k)
      ensures CellAt(a, k).enabled == CellAt(t, k).enabled
    {
      AssignAllAt(t, ks, v, k);
    }
    IterSameFlags(a, t, row, column);
  }

  lemma IterSameFlags(a: Table, b: Table, row: Option<int>, column: Option<int>)
    requires a.rows == b.rows && a.columns == b.columns
    requires forall k :: InRange(a, k) ==> CellAt(a, k).enabled == CellAt(b, k).enabled
    ensures Iter(a, row, column) == Iter(b, row, column)
  {
    var ks := Product(Lines(row, a.rows), Lines(column, a.columns));
    if forall k :: k in ks ==> InRange(a, k) {
      EnabledSame(a, b, ks);
      assert Iter(a, row, column) == Ok(EnabledAmong(a, ks));
    }
  }

  lemma {:induction false} EnabledSame(a: Table, b: Table, ks: seq<Key>)
    requires a.rows == b.rows && a.columns == b.columns
    requires forall k :: InRange(a, k) ==> CellAt(a, k).enabled == CellAt(b, k).enabled
    requires forall k :: k in ks ==> InRange(a, k)
    ensures EnabledAmong(a, ks) == EnabledAmong(b, ks)
  {
    if ks != [] {
      assert forall k :: k in ks[1..] ==> k in ks;
      EnabledSame(a, b, ks[1..]);
    }
  }

  /** The header click on a row or column: if every enabled cell of it is checked they
      all become unchecked, otherwise they all become checked; other cells and all
      enabled flags stay. Afterwards "all checked" has flipped, unless the line has no
      enabled cell. */
  lemma HeaderToggle(t: Table, row: Option<int>, column: Option<int>)
    requires Iter(t, row, column).Ok?
    ensures forall k :: k in Iter(t, row, column).value ==> IsEnabled(t, k)
    ensures var ks := Iter(t, row, column).value;
            var t' := Paint(t, row, column, !AllValues(t, ks));
            Iter(t', row, column) == Iter(t, row, column) &&
            (forall k :: k in ks ==> CellAt(t', k).checked == !AllValues(t, ks)) &&
            (ks != [] ==> AllValues(t', ks) == !AllValues(t, ks))
  {
    var ks := Iter(t, row, column).value;
    var v := !AllValues(t, ks);
    var t' := Paint(t, row, column, v);
    PaintKeepsKeys(t, row, column, v, row, column);
    if ks != [] {
      assert ks[0] in ks;
      if AllValues(t', ks) {
        assert CellAt(t', ks[0]).checked;
      }
    }
  }

  /** The cells after the items of a mapping are set in turn. */
  function AssignItems(t: Table, items: seq<(Key, bool)>): (t': Table)
    requires forall i :: 0 <= i < |items| ==> InRange(t, items[i].0)
    ensures t'.rows == t.rows && t'.columns == t.columns
    decreases |items|
  {
    if items == [] then t
    else
      var n := |items| - 1;
      assert InRange(t, items[n].0);
      Assign(AssignItems(t, items[..n]), items[n].0, items[n].1)
  }

  /** A mapping given by its items in order; a later item wins. */
  function MapOf(items: seq<(Key, bool)>): map<Key, bool>
    decreases |items|
  {
    if items == [] then map[]
    else
      var n := |items| - 1;
      MapOf(items[..n])[items[n].0 := items[n].1]
  }

  lemma MapUpdateUnion(a: map<Key, bool>, b: map<Key, bool>, k: Key, v: bool)
    ensures (a + b)[k := v] == a + b[k := v]
  {
  }

  /** MutableMapping.update: the items' keys now map to their values, the rest as before. */
  lemma {:induction false} AssignItemsContents(t: Table, items: seq<(Key, bool)>)
    requires forall i :: 0 <= i < |items| ==> InRange(t, items[i].0)
    ensures Contents(AssignItems(t, items)) == Contents(t) + MapOf(items)
    decreases |items|
  {
    if items != [] {
      var n := |items| - 1;
      var init, k, v := items[..n], items[n].0, items[n].1;
      assert forall i :: 0 <= i < n ==> init[i] == items[i];
      assert InRange(t, k);
      var t1 := AssignItems(t, init);
      assert AssignItems(t, items) == Assign(t1, k, v);
      assert MapOf(items) == MapOf(init)[k := v];
      AssignItemsContents(t, init);
      AssignContents(t1, k, v);
      MapUpdateUnion(Contents(t), MapOf(init), k, v);
    }
  }

  /** A ModelDict: a Qt item model of rows × columns checkable cells, shown as the
      mapping from the enabled keys to their check states. */
  class ModelDict {
    const rowLabels: seq<string>
    const columnLabels: seq<string>
    const items: array2<Cell>

    /** The grid as a value. */
    function Source(): (t: Table)
      reads items
      ensures t.rows == items.Length0 && t.columns == items.Length1
      ensures forall k :: InRange(t, k) ==> CellAt(t, k) == items[k.0, k.1]
    {
      Table(items.Length0, items.Length1,
        seq(items.Length0, r requires 0 <= r < items.Length0 reads items =>
          seq(items.Length1, c requires 0 <= c < items.Length1 reads items => items[r, c])))
    }

    /** One row and one column per label; every cell disabled, so the mapping is empty. */
    constructor (rows: seq<string>, columns: seq<string>)
      ensures rowLabels == rows && columnLabels == columns
      ensures fresh(items)
      ensures Source() == Empty(|rows|, |columns|)
    {
      rowLabels := rows;
      columnLabels := columns;
      items := new Cell[|rows|, |columns|]((r, c) => Cell(false, false));
      new;
      TableExt(Source(), Empty(|rows|, |columns|));
    }

    /** __setitem__: the key's cell becomes enabled with check state v; a key outside
        the grid finds no item and nothing changes. */
    method SetItem(k: Key, v: bool) returns (r: Result<()>)
      modifies items
      ensures r.Ok? <==> InRange(old(Source()), k)
      ensures r.Ok? ==> Source() == Assign(old(Source()), k, v)
      ensures r.Err? ==> r.error == NoItem && Source() == old(Source())
    {
      if !(0 <= k.0 < items.Length0 && 0 <= k.1 < items.Length1) {
        return Err(NoItem);
      }
      ghost var before := Source();
      items[k.0, k.1] := Cell(true, v);
      TableExt(Source(), Assign(before, k, v));
      r := Ok(());
    }

    /** __delitem__: the key's cell loses its flags and keeps its check state. */
    method DelItem(k: Key) returns (r: Result<()>)
      modifies items
      ensures r.Ok? <==> InRange(old(Source()), k)
      ensures r.Ok? ==> Source() == Disable(old(Source()), k)
      ensures r.Err? ==> r.error == NoItem && Source() == old(Source())
    {
      if !(0 <= k.0 < items.Length0 && 0 <= k.1 < items.Length1) {
        return Err(NoItem);
      }
      ghost var before := Source();
      items[k.0, k.1] := Cell(false, items[k.0, k.1].checked);
      TableExt(Source(), Disable(before, k));
      r := Ok(());
    }

    /** MutableMapping.update: the items are set in order; the first key outside the
        grid stops it with the earlier items already set. */
    method Update(state: seq<(Key, bool)>) returns (r: Result<()>)
      modifies items
      ensures r.Ok? <==> forall i :: 0 <= i < |state| ==> InRange(old(Source()), state[i].0)
      ensures r.Ok? ==> Source() == AssignItems(old(Source()), state)
      ensures r.Err? ==> r.error == NoItem
      ensures r.Err? ==> exists i :: 0 <= i < |state| && !InRange(old(Source()), state[i].0) &&
                           (forall j :: 0 <= j < i ==> InRange(old(Source()), state[j].0)) &&
                           Source() == AssignItems(old(Source()), state[..i])
    {
      ghost var start := Source();
      var i := 0;
      while i < |state|
        invariant 0 <= i <= |state|
        invariant forall j :: 0 <= j < i ==> InRange(start, state[j].0)
        invariant Source() == AssignItems(start, state[..i])
      {
        var k := state[i].0;
        r := SetItem(k, state[i].1);
        if r.Err? {
          return;
        }
        assert state[..i + 1][..i] == state[..i];
        i := i + 1;
      }
      assert state[..i] == state;
      r := Ok(());
    }
  }

  /** The feature-selection dialog: a ModelDict, the keys selected when it was last
      accepted, and whether its OK button is enabled. */
  class CheckboxTableDialog {
    const model: ModelDict
    var selected: set<Key>
    var okEnabled: bool

    constructor (m: ModelDict)
      ensures model == m
      ensures selected == CheckedKeys(m.Source())
      ensures okEnabled == AnyChecked(m.Source())
    {
      var t := m.Source();
      model := m;
      selected := CheckedKeys(t);
      okEnabled := AnyChecked(t);
    }

    /** __init__: rows, columns and state must all be non-empty (ValueError); the grid
        starts empty and takes the state's items; the selection starts as the checked
        keys and OK is enabled iff one is checked. */
    static method Open(rows: seq<string>, cols: seq<string>, state: seq<(Key, bool)>)
        returns (r: Result<CheckboxTableDialog>)
      ensures (|rows| == 0 || |cols| == 0 || |state| == 0) <==> r == Err(EmptyDialogInput)
      ensures r.Ok? <==> |rows| > 0 && |cols| > 0 && |state| > 0 &&
                         forall i :: 0 <= i < |state| ==> InRange(Empty(|rows|, |cols|), state[i].0)
      ensures r.Ok? ==> fresh(r.value) && fresh(r.value.model.items)
      ensures r.Ok? ==> r.value.model.Source() == AssignItems(Empty(|rows|, |cols|), state)
      ensures r.Ok? ==> r.value.selected == CheckedKeys(r.value.model.Source())
      ensures r.Ok? ==> r.value.okEnabled == AnyChecked(r.value.model.Source())
    {
      if |rows| == 0 || |cols| == 0 || |state| == 0 {
        return Err(EmptyDialogInput);
      }
      var m := new ModelDict(rows, cols);
      var u := m.Update(state);
      if u.Err? {
        return Err(u.error);
      }
      var d := new CheckboxTableDialog(m);
      r := Ok(d);
    }

    /** accept: the selection becomes exactly the enabled and checked keys. */
    method Accept()
      modifies this`selected
      ensures selected == CheckedKeys(model.Source())
    {
      selected := CheckedKeys(model.Source());
    }

    /** _update_widgets: OK is enabled iff some key is checked. */
    method UpdateWidgets()
      modifies this`okEnabled
      ensures okEnabled == AnyChecked(model.Source())
    {
      okEnabled := AnyChecked(model.Source());
    }

    /** _handle_header: a click on a row or column header toggles its enabled cells. */
    method HandleHeader(row: Option<int>, column: Option<int>) returns (r: Result<()>)
      modifies this`okEnabled, model.items
      ensures r.Ok? <==> old(Iter(model.Source(), row, column)).Ok?
      ensures r.Ok? ==>
                model.Source() == Paint(old(model.Source()), row, column,
                                        !AllValues(old(model.Source()), old(Iter(model.Source(), row, column)).value))
      ensures r.Ok? ==> okEnabled == AnyChecked(model.Source())
      ensures r.Err? ==> r.error == NoItem && model.Source() == old(model.Source()) && okEnabled == old(okEnabled)
    {
      var it := Iter(model.Source(), row, column);
      if it.Err? {
        return Err(it.error);
      }
      var ks := it.value;
      ghost var start := model.Source();
      IterEnabled(start, row, column);
      var value := !AllValues(model.Source(), ks);
      var i := 0;
      while i < |ks|
        invariant 0 <= i <= |ks|
        invariant model.Source() == AssignAll(start, ks[..i], value)
        invariant Iter(model.Source(), row, column) == Ok(ks)
      {
        AssignAllStep(start, ks, i, value);
        assert forall k :: k in ks[..i + 1] ==> k in ks;
        AssignAllKeepsKeys(start, ks[..i + 1], value, row, column);
        var _ := model.SetItem(ks[i], value);
        i := i + 1;
      }
      assert ks[..i] == ks;
      AssignAllIsPaint(start, row, column, value);
      UpdateWidgets();
      r := Ok(());
    }

    /** _handle_select: Select All / Deselect All sets every enabled cell to value. */
    method HandleSelect(value: bool)
      modifies this`okEnabled, model.items
      ensures model.Source() == Paint(old(model.Source()), None, None, value)
      ensures okEnabled == AnyChecked(model.Source())
    {
      var ks := Iter(model.Source(), None, None).value;
      ghost var start := model.Source();
      IterEnabled(start, None, None);
      var i := 0;
      while i < |ks|
        invariant 0 <= i <= |ks|
        invariant model.Source() == AssignAll(start, ks[..i], value)
        invariant Iter(model.Source(), None, None) == Ok(ks)
      {
        AssignAllStep(start, ks, i, value);
        assert forall k :: k in ks[..i + 1] ==> k in ks;
        AssignAllKeepsKeys(start, ks[..i + 1], value, None, None);
        var _ := model.SetItem(ks[i], value);
        i := i + 1;
      }
      assert ks[..i] == ks;
      AssignAllIsPaint(start, None, None, value);
      UpdateWidgets();
    }
  }
}
