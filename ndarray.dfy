/** The part of numpy's array semantics the core relies on: an N-dimensional
    array is a shape and a flat buffer laid out in row-major (C) order, so
    reshaping only relabels the buffer, while concatenation along the last
    axis, moving the last axis to the front and argmax along the first
    axis move elements around. */
module NdArray {
  import opened Failures

  type Shape = seq<nat>
  type Index = seq<nat>

  function Init<T>(s: seq<T>): seq<T>
    requires |s| > 0
  {
    s[..|s| - 1]
  }

  function Last<T>(s: seq<T>): T
    requires |s| > 0
  {
    s[|s| - 1]
  }

  /** Number of elements of an array of shape s; a zero-dimensional array holds one. */
  function Size(s: Shape): nat
    decreases |s|
  {
    if |s| == 0 then 1 else Size(Init(s)) * Last(s)
  }

  lemma SizeOfOne(n: nat)
    ensures Size([n]) == n
  {
    assert Init([n]) == [];
  }

  lemma {:induction false} SizeConcat(a: Shape, b: Shape)
    ensures Size(a + b) == Size(a) * Size(b)
    decreases |b|
  {
    if |b| == 0 {
      assert a + b == a;
    } else {
      assert Init(a + b) == a + Init(b);
      assert Last(a + b) == Last(b);
      SizeConcat(a, Init(b));
      calc {
        Size(a + b);
        Size(a + Init(b)) * Last(b);
        (Size(a) * Size(Init(b))) * Last(b);
        Size(a) * (Size(Init(b)) * Last(b));
        Size(a) * Size(b);
      }
    }
  }

  predicate InBounds(s: Shape, p: Index)
  {
    |p| == |s| && forall i :: 0 <= i < |s| ==> p[i] < s[i]
  }

  lemma MulAddBound(a: nat, b: nat, n: nat, l: nat)
    requires a < n && b < l
    ensures a * l + b < n * l
  {
    assert (n - (a + 1)) * l >= 0;
    assert n * l == (a + 1) * l + (n - (a + 1)) * l;
  }

  lemma MulLeftMono(x: int, y: int, l: nat)
    requires x <= y
    ensures x * l <= y * l
  {
    assert (y - x) * l >= 0;
  }

  lemma DivBound(k: nat, n: nat, l: nat)
    requires k < n * l
    ensures l > 0 && k / l < n
  {
    assert n * l > 0;
    assert l != 0;
    var q := k / l;
    assert q * l + k % l == k;
    if n <= q {
      MulLeftMono(n, q, l);
      assert false;
    }
  }

  lemma DivModOfMulAdd(a: nat, b: nat, l: nat)
    requires b < l
    ensures (a * l + b) / l == a && (a * l + b) % l == b
  {
    var k := a * l + b;
    var q, r := k / l, k % l;
    assert q * l + r == a * l + b;
    if q < a {
      MulLeftMono(q + 1, a, l);
      assert false;
    }
    if q > a {
      MulLeftMono(a + 1, q, l);
      assert false;
    }
  }

  /** Row-major position of index p in an array of shape s (the last axis varies fastest). */
  function Offset(s: Shape, p: Index): (k: nat)
    requires InBounds(s, p)
    ensures k < Size(s)
    decreases |s|
  {
    if |s| == 0 then 0
    else
      var k0 := Offset(Init(s), Init(p));
      MulAddBound(k0, Last(p), Size(Init(s)), Last(s));
      k0 * Last(s) + Last(p)
  }

  /** The index whose row-major position is k: the inverse of Offset. */
  function Unflatten(s: Shape, k: nat): (p: Index)
    requires k < Size(s)
    ensures InBounds(s, p) && Offset(s, p) == k
    decreases |s|
  {
    if |s| == 0 then []
    else
      DivBound(k, Size(Init(s)), Last(s));
      var p0 := Unflatten(Init(s), k / Last(s));
      var p := p0 + [k % Last(s)];
      assert Init(p) == p0;
      p
  }

  /** Flattening an in-bounds index and unflattening the position gives the index back. */
  lemma {:induction false} UnflattenOffset(s: Shape, p: Index)
    requires InBounds(s, p)
    ensures Unflatten(s, Offset(s, p)) == p
    decreases |s|
  {
    if |s| > 0 {
      var k0 := Offset(Init(s), Init(p));
      DivModOfMulAdd(k0, Last(p), Last(s));
      UnflattenOffset(Init(s), Init(p));
      assert Init(p) + [Last(p)] == p;
    }
  }

  /** Row-major flattening is a bijection between in-bounds indices and 0 .. Size(s). */
  lemma OffsetInjective(s: Shape, p: Index, p': Index)
    requires InBounds(s, p) && InBounds(s, p')
    ensures Offset(s, p) == Offset(s, p') <==> p == p'
  {
    UnflattenOffset(s, p);
    UnflattenOffset(s, p');
  }

  lemma InBoundsPrepend(n: nat, s: Shape, i: nat, p: Index)
    requires i < n && InBounds(s, p)
    ensures InBounds([n] + s, [i] + p)
  {
    forall d | 0 <= d < |s| + 1
      ensures ([i] + p)[d] < ([n] + s)[d]
    {
      if d > 0 {
        assert ([i] + p)[d] == p[d - 1] && ([n] + s)[d] == s[d - 1];
      }
    }
  }

  /** A leading axis of extent n adds i * Size(s) to the position. */
  lemma {:induction false} OffsetPrepend(n: nat, s: Shape, i: nat, p: Index)
    requires i < n && InBounds(s, p)
    ensures InBounds([n] + s, [i] + p)
    ensures Offset([n] + s, [i] + p) == i * Size(s) + Offset(s, p)
    decreases |s|
  {
    InBoundsPrepend(n, s, i, p);
    if |s| == 0 {
      assert [n] + s == [n] && [i] + p == [i];
      assert Init([n]) == [] && Init([i]) == [];
    } else {
      var s0, p0 := Init(s), Init(p);
      assert Init([n] + s) == [n] + s0;
      assert Init([i] + p) == [i] + p0;
      assert InBounds(s0, p0);
      OffsetPrepend(n, s0, i, p0);
      var a, b, l, x := Size(s0), Offset(s0, p0), Last(s), Last(p);
      assert Last([n] + s) == l && Last([i] + p) == x;
      assert Offset([n] + s, [i] + p) == Offset([n] + s0, [i] + p0) * l + x;
      assert Offset([n] + s0, [i] + p0) == i * a + b;
      ArithRearrange(i, a, b, l, x);
    }
  }

  lemma ArithRearrange(i: nat, a: nat, b: nat, l: nat, x: nat)
    ensures (i * a + b) * l + x == i * (a * l) + (b * l + x)
  {
    assert (i * a + b) * l == (i * a) * l + b * l;
    assert (i * a) * l == i * (a * l);
  }

  /** The rows of a flat buffer of n rows of c elements each. */
  function Rows<T>(data: seq<T>, n: nat, c: nat): (r: seq<seq<T>>)
    requires |data| == n * c
    ensures |r| == n && forall q :: 0 <= q < n ==> |r[q]| == c
    decreases n
  {
    if n == 0 then []
    else
      assert n * c == (n - 1) * c + c;
      [data[..c]] + Rows(data[c..], n - 1, c)
  }

  function Join<T>(rows: seq<seq<T>>): seq<T>
  {
    if rows == [] then [] else rows[0] + Join(rows[1..])
  }

  lemma {:induction false} RowsAt<T>(data: seq<T>, n: nat, c: nat, q: nat, j: nat)
    requires |data| == n * c && q < n && j < c
    ensures q * c + j < |data| && Rows(data, n, c)[q][j] == data[q * c + j]
    decreases n
  {
    MulAddBound(q, j, n, c);
    assert n * c == (n - 1) * c + c;
    if q > 0 {
      RowsAt(data[c..], n - 1, c, q - 1, j);
      assert (q - 1) * c + j + c == q * c + j;
    }
  }

  /** Cutting a joined sequence of equally long rows gives the rows back. */
  lemma {:induction false} RowsJoin<T>(rows: seq<seq<T>>, c: nat)
    requires forall q :: 0 <= q < |rows| ==> |rows[q]| == c
    ensures |Join(rows)| == |rows| * c && Rows(Join(rows), |rows|, c) == rows
    decreases |rows|
  {
    if rows != [] {
      RowsJoin(rows[1..], c);
      var j := Join(rows);
      assert |rows| * c == (|rows| - 1) * c + c;
      assert j[..c] == rows[0];
      assert j[c..] == Join(rows[1..]);
      assert [rows[0]] + rows[1..] == rows;
    }
  }

  datatype ArrayValue<T> = ArrayOf(shape: Shape, data: seq<T>)

  /** An array: its buffer holds exactly Size(shape) elements. */
  type NdArray<T> = a: ArrayValue<T> | |a.data| == Size(a.shape) witness ArrayOf([0], [])

  function At<T>(a: NdArray<T>, p: Index): T
    requires InBounds(a.shape, p)
  {
    a.data[Offset(a.shape, p)]
  }

  /** The element vectors along the last axis, one per position of the other axes, row-major. */
  function PixelRows<T>(a: NdArray<T>): (r: seq<seq<T>>)
    requires |a.shape| > 0
    ensures |r| == Size(Init(a.shape)) && forall q :: 0 <= q < |r| ==> |r[q]| == Last(a.shape)
  {
    Rows(a.data, Size(Init(a.shape)), Last(a.shape))
  }

  /** a[p] for an index p of every axis but the last: the vector along the last axis. */
  function Vector<T>(a: NdArray<T>, p: Index): (v: seq<T>)
    requires |a.shape| > 0 && InBounds(Init(a.shape), p)
    ensures |v| == Last(a.shape)
  {
    PixelRows(a)[Offset(Init(a.shape), p)]
  }

  /** Element j of a[p] is the element at index p + [j]. */
  lemma VectorAt<T>(a: NdArray<T>, p: Index, j: nat)
    requires |a.shape| > 0 && InBounds(Init(a.shape), p) && j < Last(a.shape)
    ensures InBounds(a.shape, p + [j]) && Vector(a, p)[j] == At(a, p + [j])
  {
    var s := Init(a.shape);
    assert Init(p + [j]) == p && Last(p + [j]) == j;
    RowsAt(a.data, Size(s), Last(a.shape), Offset(s, p), j);
  }

  /** a.reshape(s): the buffer is kept and only the shape changes. */
  function Reshape<T>(a: NdArray<T>, s: Shape): (r: Result<NdArray<T>>)
    ensures r.Ok? <==> Size(s) == |a.data|
    ensures r.Ok? ==> r.value.shape == s && r.value.data == a.data
  {
    if Size(s) == |a.data| then Ok(ArrayOf(s, a.data)) else Err(BadReshape)
  }

  /** a.reshape((*prefix, -1)): numpy infers the last extent, and refuses when the
      known extents multiply to zero (the inferred extent is then ambiguous) or do
      not divide the number of elements. */
  function ReshapeInferLast<T>(a: NdArray<T>, prefix: Shape): (r: Result<NdArray<T>>)
    ensures r.Ok? <==> Size(prefix) > 0 && |a.data| % Size(prefix) == 0
    ensures r.Ok? ==> r.value.shape == prefix + [|a.data| / Size(prefix)] && r.value.data == a.data
  {
    var n := Size(prefix);
    if n == 0 || |a.data| % n != 0 then Err(BadReshape)
    else
      var c := |a.data| / n;
      SizeConcat(prefix, [c]);
      SizeOfOne(c);
      Ok(ArrayOf(prefix + [c], a.data))
  }

  /** a.reshape((-1, c)): one row of c elements per group of c consecutive elements. */
  function ReshapeInferFirst<T>(a: NdArray<T>, c: nat): (r: Result<NdArray<T>>)
    ensures r.Ok? <==> c > 0 && |a.data| % c == 0
    ensures r.Ok? ==> r.value.shape == [|a.data| / c, c] && r.value.data == a.data
  {
    if c == 0 || |a.data| % c != 0 then Err(BadReshape)
    else
      var m := |a.data| / c;
      SizeConcat([m], [c]);
      SizeOfOne(m);
      SizeOfOne(c);
      assert [m] + [c] == [m, c];
      Ok(ArrayOf([m, c], a.data))
  }

  /** Extent of the last axis (0 for a zero-dimensional array, which has none). */
  function LastDim<T>(a: NdArray<T>): nat
  {
    if |a.shape| == 0 then 0 else Last(a.shape)
  }

  /** Total extent of the last axes of parts. */
  function Channels<T>(parts: seq<NdArray<T>>): nat
  {
    if parts == [] then 0 else LastDim(parts[0]) + Channels(parts[1..])
  }

  /** Every part has at least one axis, and its other axes are s. */
  predicate SameSpatial<T>(parts: seq<NdArray<T>>, s: Shape)
  {
    forall i :: 0 <= i < |parts| ==> |parts[i].shape| > 0 && Init(parts[i].shape) == s
  }

  function ZipCat<T>(a: seq<seq<T>>, b: seq<seq<T>>): (r: seq<seq<T>>)
    requires |a| == |b|
    ensures |r| == |a| && forall q :: 0 <= q < |a| ==> r[q] == a[q] + b[q]
  {
    seq(|a|, q requires 0 <= q < |a| => a[q] + b[q])
  }

  /** Row q of the concatenation: row q of every part, in part order. */
  function ConcatRows<T>(parts: seq<NdArray<T>>, s: Shape): (r: seq<seq<T>>)
    requires |parts| > 0 && SameSpatial(parts, s)
    ensures |r| == Size(s) && forall q :: 0 <= q < Size(s) ==> |r[q]| == Channels(parts)
    decreases |parts|
  {
    var rows := PixelRows(parts[0]);
    if |parts| == 1 then rows
    else ZipCat(rows, ConcatRows(parts[1..], s))
  }

  /** numpy.concatenate(parts, axis=-1). */
  function ConcatenateLast<T>(parts: seq<NdArray<T>>): (r: Result<NdArray<T>>)
    ensures r.Ok? <==> |parts| > 0 && |parts[0].shape| > 0 && SameSpatial(parts, Init(parts[0].shape))
    ensures r.Ok? ==> r.value.shape == Init(parts[0].shape) + [Channels(parts)]
    ensures |parts| == 0 ==> r == Err(EmptyConcatenate)
  {
    if |parts| == 0 then Err(EmptyConcatenate)
    else if exists i :: 0 <= i < |parts| && |parts[i].shape| == 0 then Err(ZeroDimConcatenate)
    else if exists i :: 0 <= i < |parts| && Init(parts[i].shape) != Init(parts[0].shape) then
      Err(ConcatenateMismatch)
    else
      var s := Init(parts[0].shape);
      var rows := ConcatRows(parts, s);
      RowsJoin(rows, Channels(parts));
      SizeConcat(s, [Channels(parts)]);
      SizeOfOne(Channels(parts));
      Ok(ArrayOf(s + [Channels(parts)], Join(rows)))
  }

  /** Part i occupies channels Channels(parts[..i]) .. Channels(parts[..i]) + LastDim(parts[i])
      of every row of the concatenation. */
  lemma {:induction false} ConcatRowsSlice<T>(parts: seq<NdArray<T>>, s: Shape, q: nat, i: nat)
    requires |parts| > 0 && SameSpatial(parts, s) && q < Size(s) && i < |parts|
    ensures Channels(parts[..i]) + LastDim(parts[i]) <= Channels(parts)
    ensures ConcatRows(parts, s)[q][Channels(parts[..i]) .. Channels(parts[..i]) + LastDim(parts[i])]
         == PixelRows(parts[i])[q]
    decreases i
  {
    var rows := PixelRows(parts[0]);
    if i == 0 {
      assert parts[..0] == [];
      if |parts| > 1 {
        assert ConcatRows(parts, s)[q] == rows[q] + ConcatRows(parts[1..], s)[q];
      }
    } else {
      ConcatRowsSlice(parts[1..], s, q, i - 1);
      assert parts[..i][0] == parts[0];
      assert parts[..i][1..] == parts[1..][..i - 1];
      assert parts[1..][i - 1] == parts[i];
      assert ConcatRows(parts, s)[q] == rows[q] + ConcatRows(parts[1..], s)[q];
    }
  }

  /** The concatenation's vector at p holds each part's vector at p, in part order. */
  lemma ConcatenateLastVector<T>(parts: seq<NdArray<T>>, p: Index, i: nat)
    requires ConcatenateLast(parts).Ok? && i < |parts| && InBounds(Init(parts[0].shape), p)
    ensures Channels(parts[..i]) + LastDim(parts[i]) <= Channels(parts)
    ensures InBounds(Init(parts[i].shape), p)
    ensures Vector(ConcatenateLast(parts).value, p)[Channels(parts[..i]) .. Channels(parts[..i]) + LastDim(parts[i])]
         == Vector(parts[i], p)
  {
    var s := Init(parts[0].shape);
    var rows := ConcatRows(parts, s);
    var r := ConcatenateLast(parts).value;
    RowsJoin(rows, Channels(parts));
    assert Init(r.shape) == s;
    assert PixelRows(r) == rows;
    ConcatRowsSlice(parts, s, Offset(s, p), i);
  }

  function Transpose<T>(rows: seq<seq<T>>, k: nat): (r: seq<seq<T>>)
    requires forall q :: 0 <= q < |rows| ==> |rows[q]| == k
    ensures |r| == k
    ensures forall j :: 0 <= j < k ==> |r[j]| == |rows|
    ensures forall j, q :: 0 <= j < k && 0 <= q < |rows| ==> r[j][q] == rows[q][j]
  {
    seq(k, j requires 0 <= j < k => seq(|rows|, q requires 0 <= q < |rows| => rows[q][j]))
  }

  /** numpy.moveaxis(a, -1, 0). */
  function MoveLastAxisFirst<T>(a: NdArray<T>): (r: Result<NdArray<T>>)
    ensures r.Ok? <==> |a.shape| > 0
    ensures r.Ok? ==> r.value.shape == [Last(a.shape)] + Init(a.shape)
  {
    if |a.shape| == 0 then Err(BadAxis)
    else
      var s, k := Init(a.shape), Last(a.shape);
      var cols := Transpose(PixelRows(a), k);
      RowsJoin(cols, Size(s));
      SizeConcat([k], s);
      SizeOfOne(k);
      Ok(ArrayOf([k] + s, Join(cols)))
  }

  /** Moving the last axis to the front: result[j][p] == a[p][j]. */
  lemma MoveLastAxisFirstAt<T>(a: NdArray<T>, p: Index, j: nat)
    requires |a.shape| > 0 && InBounds(Init(a.shape), p) && j < Last(a.shape)
    ensures MoveLastAxisFirst(a).Ok?
    ensures InBounds(MoveLastAxisFirst(a).value.shape, [j] + p) && InBounds(a.shape, p + [j])
    ensures At(MoveLastAxisFirst(a).value, [j] + p) == At(a, p + [j])
  {
    var s, k := Init(a.shape), Last(a.shape);
    var n := Size(s);
    var cols := Transpose(PixelRows(a), k);
    var r := MoveLastAxisFirst(a).value;
    RowsJoin(cols, n);
    OffsetPrepend(k, s, j, p);
    var q := Offset(s, p);
    RowsAt(Join(cols), k, n, j, q);
    VectorAt(a, p, j);
    assert r.data == Join(cols);
  }

  /** The index of the first largest element. */
  function FirstArgMax(s: seq<real>): (r: nat)
    requires |s| > 0
    ensures r < |s|
    ensures forall j :: 0 <= j < |s| ==> s[j] <= s[r]
    ensures forall j :: 0 <= j < r ==> s[j] < s[r]
  {
    if |s| == 1 then 0
    else
      var r0 := FirstArgMax(Init(s));
      if Last(s) > s[r0] then |s| - 1 else r0
  }

  /** a[:, p]: the elements along the first axis at index p of the other axes. */
  function Column<T>(a: NdArray<T>, p: Index): (c: seq<T>)
    requires |a.shape| > 0 && InBounds(a.shape[1..], p)
    ensures |c| == a.shape[0]
  {
    seq(a.shape[0], j requires 0 <= j < a.shape[0] =>
      OffsetPrepend(a.shape[0], a.shape[1..], j, p);
      assert [a.shape[0]] + a.shape[1..] == a.shape;
      At(a, [j] + p))
  }

  /** numpy.argmax(a, axis=0). numpy accepts axis 0 on a zero-dimensional array, which
      it treats as holding one element, and answers the scalar 0; an empty first axis
      raises ValueError. */
  function ArgMaxFirstAxis(a: NdArray<real>): (r: Result<NdArray<int>>)
    ensures r.Ok? <==> |a.shape| == 0 || a.shape[0] > 0
    ensures r.Err? ==> r.error == EmptyArgmax
    ensures |a.shape| == 0 ==> r == Ok(ArrayOf([], [0]))
    ensures r.Ok? && |a.shape| > 0 ==> r.value.shape == a.shape[1..]
  {
    if |a.shape| == 0 then Ok(ArrayOf([], [0]))
    else if a.shape[0] == 0 then Err(EmptyArgmax)
    else
      var k, s := a.shape[0], a.shape[1..];
      assert a.shape == [k] + s;
      SizeConcat([k], s);
      SizeOfOne(k);
      var cols := Transpose(Rows(a.data, k, Size(s)), Size(s));
      Ok(ArrayOf(s, seq(Size(s), q requires 0 <= q < Size(s) => FirstArgMax(cols[q]) as int)))
  }

  /** The argmax at p is the first index of the largest element of the column a[:, p]. */
  lemma ArgMaxFirstAxisAt(a: NdArray<real>, p: Index)
    requires |a.shape| > 0 && a.shape[0] > 0 && InBounds(a.shape[1..], p)
    ensures InBounds(ArgMaxFirstAxis(a).value.shape, p)
    ensures At(ArgMaxFirstAxis(a).value, p) == FirstArgMax(Column(a, p)) as int
  {
    var k, s := a.shape[0], a.shape[1..];
    assert a.shape == [k] + s;
    SizeConcat([k], s);
    SizeOfOne(k);
    var rows := Rows(a.data, k, Size(s));
    var cols := Transpose(rows, Size(s));
    var q := Offset(s, p);
    forall j | 0 <= j < k
      ensures cols[q][j] == Column(a, p)[j]
    {
      OffsetPrepend(k, s, j, p);
      RowsAt(a.data, k, Size(s), j, q);
    }
    assert cols[q] == Column(a, p);
  }

  /** An elementwise operation. */
  function Map<T, U>(f: T -> U, a: NdArray<T>): (r: NdArray<U>)
    ensures r.shape == a.shape
    ensures forall p :: InBounds(a.shape, p) ==> At(r, p) == f(At(a, p))
  {
    ArrayOf(a.shape, seq(|a.data|, i requires 0 <= i < |a.data| => f(a.data[i])))
  }
}
