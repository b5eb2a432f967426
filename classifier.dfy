/** NDSparseClassifier: the adapter between an N-dimensional feature array
    (spatial axes plus a trailing feature axis), a sparse array of labels
    over the spatial axes, and a scikit-learn style estimator that works on
    matrices of one row per sample. Training gathers the feature rows at the
    labelled coordinates; prediction flattens every spatial position into a
    row and reshapes the estimator's answer back onto the spatial grid. */
module Classifier {
  import opened Failures
  import opened NdArray

  /** sparse.COO: the shape of a labels array and its stored entries, as
      parallel lists of coordinates and values. */
  datatype SparseValue = Coo(shape: Shape, coords: seq<Index>, data: seq<int>)

  predicate WellFormed(y: SparseValue)
  {
    |y.coords| == |y.data| && forall j :: 0 <= j < |y.coords| ==> InBounds(y.shape, y.coords[j])
  }

  type SparseLabels = y: SparseValue | WellFormed(y) witness Coo([], [], [])

  lemma OffsetDetermines(s: Shape, p: Index)
    requires InBounds(s, p)
    ensures forall p' :: InBounds(s, p') && Offset(s, p') == Offset(s, p) ==> p' == p
  {
    forall p' | InBounds(s, p') && Offset(s, p') == Offset(s, p)
      ensures p' == p
    {
      OffsetInjective(s, p, p');
    }
  }

  /** The non-zero entries among the first k row-major positions of a, in row-major order. */
  function NonZeroBelow(a: NdArray<int>, k: nat): (y: SparseLabels)
    requires k <= |a.data|
    ensures y.shape == a.shape
    ensures forall j :: 0 <= j < |y.coords| ==>
              Offset(a.shape, y.coords[j]) < k && y.data[j] == At(a, y.coords[j]) && y.data[j] != 0
    ensures forall j, j' :: 0 <= j < j' < |y.coords| ==>
              Offset(a.shape, y.coords[j]) < Offset(a.shape, y.coords[j'])
    ensures forall p :: InBounds(a.shape, p) && Offset(a.shape, p) < k && At(a, p) != 0 ==> p in y.coords
    decreases k
  {
    if k == 0 then Coo(a.shape, [], [])
    else
      var y := NonZeroBelow(a, k - 1);
      if a.data[k - 1] == 0 then y
      else
        var p := Unflatten(a.shape, k - 1);
        OffsetDetermines(a.shape, p);
        Coo(a.shape, y.coords + [p], y.data + [a.data[k - 1]])
  }

  /** sparse.COO.from_numpy: the non-zero entries of a dense labels array, in row-major
      order; 0 means "unlabelled". */
  function FromDense(a: NdArray<int>): (y: SparseLabels)
    ensures y.shape == a.shape
    ensures forall j :: 0 <= j < |y.coords| ==> y.data[j] == At(a, y.coords[j]) && y.data[j] != 0
    ensures forall j, j' :: 0 <= j < j' < |y.coords| ==>
              Offset(a.shape, y.coords[j]) < Offset(a.shape, y.coords[j'])
    ensures forall p :: InBounds(a.shape, p) && At(a, p) != 0 ==> p in y.coords
  {
    NonZeroBelow(a, |a.data|)
  }

  /** x[c] for an index c of the first m axes: the block of the remaining axes, flat. */
  function SubBlock<T>(x: NdArray<T>, m: nat, c: Index): (b: seq<T>)
    requires m <= |x.shape| && InBounds(x.shape[..m], c)
    ensures |b| == Size(x.shape[m..])
  {
    assert x.shape[..m] + x.shape[m..] == x.shape;
    SizeConcat(x.shape[..m], x.shape[m..]);
    Rows(x.data, Size(x.shape[..m]), Size(x.shape[m..]))[Offset(x.shape[..m], c)]
  }

  /** Every stored coordinate of y addresses the leading axes of x. */
  predicate Indexable(x: NdArray<real>, y: SparseLabels)
  {
    |y.shape| <= |x.shape| &&
    forall j :: 0 <= j < |y.coords| ==> InBounds(x.shape[..|y.shape|], y.coords[j])
  }

  /** x[tuple(y.coords)]: numpy advanced indexing with one index array per label axis.
      It yields one row per stored coordinate, in coordinate order; a coordinate
      outside x raises IndexError, and so do more label axes than x has. */
  function Gather(x: NdArray<real>, y: SparseLabels): (r: Result<NdArray<real>>)
    ensures r.Ok? <==> Indexable(x, y)
    ensures r.Ok? && |y.shape| == 0 ==> r.value == x
    ensures r.Ok? && |y.shape| > 0 ==>
              r.value.shape == [|y.coords|] + x.shape[|y.shape|..] &&
              |r.value.data| == |y.coords| * Size(x.shape[|y.shape|..]) &&
              forall j :: 0 <= j < |y.coords| ==>
                Rows(r.value.data, |y.coords|, Size(x.shape[|y.shape|..]))[j] == SubBlock(x, |y.shape|, y.coords[j])
  {
    var m := |y.shape|;
    if m > |x.shape| then Err(TooManyIndices)
    else if exists j :: 0 <= j < |y.coords| && !InBounds(x.shape[..m], y.coords[j]) then Err(IndexOutOfRange)
    else if m == 0 then Ok(x)
    else
      var rest := x.shape[m..];
      var rows := seq(|y.coords|, j requires 0 <= j < |y.coords| => SubBlock(x, m, y.coords[j]));
      RowsJoin(rows, Size(rest));
      SizeConcat([|y.coords|], rest);
      SizeOfOne(|y.coords|);
      Ok(ArrayOf([|y.coords|] + rest, Join(rows)))
  }

  /** For labels over exactly the spatial axes of a feature array, the gathered row j
      is the feature vector at coordinate j. */
  lemma GatherRowIsFeatureVector(x: NdArray<real>, y: SparseLabels, j: nat)
    requires |x.shape| > 0 && y.shape == Init(x.shape) && |y.shape| > 0
    requires Indexable(x, y) && j < |y.coords|
    ensures Gather(x, y).Ok?
    ensures Gather(x, y).value.shape == [|y.coords|, Last(x.shape)]
    ensures |Gather(x, y).value.data| == |y.coords| * Last(x.shape)
    ensures Rows(Gather(x, y).value.data, |y.coords|, Last(x.shape))[j] == Vector(x, y.coords[j])
  {
    var m, n, l := |y.shape|, |y.coords|, Last(x.shape);
    assert x.shape[..m] == Init(x.shape);
    assert x.shape[m..] == [l];
    SizeOfOne(l);
    SizeOfOne(n);
    var g := Gather(x, y);
    assert g.Ok?;
    var r := g.value;
    assert [n] + [l] == [n, l];
    assert r.shape == [n, l];
    assert Rows(r.data, n, Size(x.shape[m..]))[j] == SubBlock(x, m, y.coords[j]);
    assert SubBlock(x, m, y.coords[j]) == Vector(x, y.coords[j]);
  }

  /** _fit_with: the wrapped fit receives the gathered rows paired with y.data, and
      its answer is passed on unchanged. */
  function FitWith<M>(fit: (NdArray<real>, seq<int>) -> Result<M>, x: NdArray<real>, y: SparseLabels): (r: Result<M>)
    ensures !Indexable(x, y) ==> r.Err?
    ensures Indexable(x, y) ==> r == fit(Gather(x, y).value, y.data)
  {
    match Gather(x, y)
    case Err(e) => Err(e)
    case Ok(rows) => fit(rows, y.data)
  }

  /** Training on a dense labels array over the spatial axes of x: one training pair
      per labelled (non-zero) pixel, in row-major order, pairing the feature vector
      at that pixel with its label; every labelled pixel contributes one. */
  lemma TrainingPairs(x: NdArray<real>, labels: NdArray<int>, j: nat)
    requires |x.shape| > 1 && labels.shape == Init(x.shape)
    requires j < |FromDense(labels).coords|
    ensures Indexable(x, FromDense(labels))
    ensures Gather(x, FromDense(labels)).value.shape == [|FromDense(labels).coords|, Last(x.shape)]
    ensures |Gather(x, FromDense(labels)).value.data| == |FromDense(labels).coords| * Last(x.shape)
    ensures InBounds(Init(x.shape), FromDense(labels).coords[j])
    ensures Rows(Gather(x, FromDense(labels)).value.data, |FromDense(labels).coords|, Last(x.shape))[j]
         == Vector(x, FromDense(labels).coords[j])
    ensures FromDense(labels).data[j] == At(labels, FromDense(labels).coords[j]) != 0
  {
    var y := FromDense(labels);
    assert y.shape == Init(x.shape);
    assert x.shape[..|y.shape|] == Init(x.shape);
    assert Indexable(x, y);
    GatherRowIsFeatureVector(x, y, j);
  }

  /** The scikit-learn estimator being wrapped, as the functions it offers; fit and
      partial_fit return the trained estimator. */
  datatype Estimator = Estimator(
    fit: (NdArray<real>, seq<int>) -> Result<Estimator>,
    partialFit: (NdArray<real>, seq<int>) -> Result<Estimator>,
    predict: NdArray<real> -> Result<NdArray<int>>,
    predictProba: NdArray<real> -> Result<NdArray<real>>,
    predictLogProba: NdArray<real> -> Result<NdArray<real>>,
    transform: NdArray<real> -> Result<NdArray<real>>)

  /** _predict_with: x reshaped to one row per spatial position (row-major), the
      wrapped function applied, and its answer reshaped to x.shape[:-1]. */
  function PredictWith<T>(func: NdArray<real> -> Result<NdArray<T>>, x: NdArray<real>): (r: Result<NdArray<T>>)
    ensures r.Ok? ==> |x.shape| > 0 && r.value.shape == Init(x.shape)
    ensures |x.shape| == 0 ==> r == Err(IndexOutOfRange)
  {
    if |x.shape| == 0 then Err(IndexOutOfRange)
    else
      match ReshapeInferFirst(x, Last(x.shape))
      case Err(e) => Err(e)
      case Ok(rows) =>
        match func(rows)
        case Err(e) => Err(e)
        case Ok(out) => Reshape(out, Init(x.shape))
  }

  /** g applied to every row of a matrix: one value per row. */
  function MapRows<T>(g: seq<real> -> T, a: NdArray<real>): (r: NdArray<T>)
    requires |a.shape| == 2
    ensures r.shape == [a.shape[0]]
  {
    var n := a.shape[0];
    assert Init(a.shape) == [n];
    SizeOfOne(n);
    var rows := PixelRows(a);
    assert |rows| == n;
    var d := seq(n, i requires 0 <= i < n => g(rows[i]));
    assert |d| == Size([n]);
    ArrayOf([n], d)
  }

  /** func treats each row of a matrix independently, answering g(row). */
  ghost predicate RowWise<T>(func: NdArray<real> -> Result<NdArray<T>>, g: seq<real> -> T)
  {
    forall a: NdArray<real> :: |a.shape| == 2 ==> func(a) == Ok(MapRows(g, a))
  }

  /** The rows x is flattened into are its feature vectors, in row-major order. */
  lemma FlattenedRows(x: NdArray<real>)
    requires |x.shape| > 0 && Last(x.shape) > 0
    ensures ReshapeInferFirst(x, Last(x.shape)).Ok?
    ensures ReshapeInferFirst(x, Last(x.shape)).value.shape == [Size(Init(x.shape)), Last(x.shape)]
    ensures PixelRows(ReshapeInferFirst(x, Last(x.shape)).value) == PixelRows(x)
  {
    var n, c := Size(Init(x.shape)), Last(x.shape);
    assert |x.data| == n * c + 0;
    DivModOfMulAdd(n, 0, c);
    SizeOfOne(n);
    assert Init([n, c]) == [n];
  }

  /** Prediction through the adapter is pointwise: at every spatial position p the
      result is the wrapped function's answer for the feature vector x[p]. */
  lemma PredictPointwise<T>(func: NdArray<real> -> Result<NdArray<T>>, g: seq<real> -> T, x: NdArray<real>, p: Index)
    requires RowWise(func, g) && |x.shape| > 0 && Last(x.shape) > 0 && InBounds(Init(x.shape), p)
    ensures PredictWith(func, x).Ok?
    ensures At(PredictWith(func, x).value, p) == g(Vector(x, p))
  {
    FlattenedRows(x);
    var rows := ReshapeInferFirst(x, Last(x.shape)).value;
    var out := MapRows(g, rows);
    SizeOfOne(rows.shape[0]);
    assert func(rows) == Ok(out);
  }

  /** g applied to every row of a matrix, each answer a vector of k values. */
  function MapRowsVector(g: seq<real> -> seq<real>, k: nat, a: NdArray<real>): (r: NdArray<real>)
    requires |a.shape| == 2 && forall v :: |g(v)| == k
    ensures r.shape == [a.shape[0], k] && |r.data| == a.shape[0] * k
  {
    var n := a.shape[0];
    assert Init(a.shape) == [n];
    SizeOfOne(n);
    var ins := PixelRows(a);
    assert |ins| == n;
    var rows := seq(n, i requires 0 <= i < n => g(ins[i]));
    assert forall q :: 0 <= q < |rows| ==> |rows[q]| == k;
    RowsJoin(rows, k);
    SizeConcat([n], [k]);
    SizeOfOne(k);
    assert [n] + [k] == [n, k];
    ArrayOf([n, k], Join(rows))
  }

  /** func treats each row independently, answering a vector of k values (one per class). */
  ghost predicate RowWiseVector(func: NdArray<real> -> Result<NdArray<real>>, g: seq<real> -> seq<real>, k: nat)
  {
    (forall v :: |g(v)| == k) &&
    forall a: NdArray<real> :: |a.shape| == 2 ==> func(a) == Ok(MapRowsVector(g, k, a))
  }

  /** As written, _predict_with cannot pass on per-row vectors: for an image with a
      pixel and k != 1 classes the final reshape to x.shape[:-1] fails. */
  lemma PredictWithRejectsClassVectors(func: NdArray<real> -> Result<NdArray<real>>, g: seq<real> -> seq<real>, k: nat, x: NdArray<real>)
    requires RowWiseVector(func, g, k) && k != 1
    requires |x.shape| > 0 && Last(x.shape) > 0 && Size(Init(x.shape)) > 0
    ensures PredictWith(func, x) == Err(BadReshape)
  {
    FlattenedRows(x);
    var n := Size(Init(x.shape));
    var rows := ReshapeInferFirst(x, Last(x.shape)).value;
    assert rows.shape == [n, Last(x.shape)];
    var out := MapRowsVector(g, k, rows);
    assert func(rows) == Ok(out);
    assert |out.data| == n * k;
    ProductNotSelf(n, k);
    assert Reshape(out, Init(x.shape)) == Err(BadReshape);
  }

  lemma ProductNotSelf(n: nat, k: nat)
    requires n > 0 && k != 1
    ensures n * k != n
  {
    if k > 1 {
      MulLeftMono(2, k, n);
    }
  }

  /** The reshape evidently intended for per-row vectors: x.shape[:-1] + (-1,), so that
      the class axis comes last. */
  function PredictPerPixelWith(func: NdArray<real> -> Result<NdArray<real>>, x: NdArray<real>): (r: Result<NdArray<real>>)
    ensures r.Ok? ==> |x.shape| > 0 && |r.value.shape| == |x.shape| && Init(r.value.shape) == Init(x.shape)
    ensures |x.shape| == 0 ==> r == Err(IndexOutOfRange)
  {
    if |x.shape| == 0 then Err(IndexOutOfRange)
    else
      match ReshapeInferFirst(x, Last(x.shape))
      case Err(e) => Err(e)
      case Ok(rows) =>
        match func(rows)
        case Err(e) => Err(e)
        case Ok(out) =>
          var r := ReshapeInferLast(out, Init(x.shape));
          assert r.Ok? ==> Init(r.value.shape) == Init(x.shape);
          r
  }

  /** With the intended reshape, the answer at spatial position p is the vector of k
      values the wrapped function gives for the feature vector x[p]. */
  lemma PredictPerPixelPointwise(func: NdArray<real> -> Result<NdArray<real>>, g: seq<real> -> seq<real>, k: nat, x: NdArray<real>, p: Index)
    requires RowWiseVector(func, g, k)
    requires |x.shape| > 0 && Last(x.shape) > 0 && Size(Init(x.shape)) > 0 && InBounds(Init(x.shape), p)
    ensures PredictPerPixelWith(func, x).Ok?
    ensures PredictPerPixelWith(func, x).value.shape == Init(x.shape) + [k]
    ensures Vector(PredictPerPixelWith(func, x).value, p) == g(Vector(x, p))
  {
    FlattenedRows(x);
    var n := Size(Init(x.shape));
    var rows := ReshapeInferFirst(x, Last(x.shape)).value;
    var out := MapRowsVector(g, k, rows);
    assert func(rows) == Ok(out);
    var vs := seq(n, i requires 0 <= i < n => g(PixelRows(rows)[i]));
    RowsJoin(vs, k);
    assert out.data == Join(vs);
    assert |out.data| == k * n + 0;
    DivModOfMulAdd(k, 0, n);
    var r := PredictPerPixelWith(func, x).value;
    assert r.data == out.data;
    assert r.shape == Init(x.shape) + [k];
    assert Init(r.shape) == Init(x.shape);
    assert PixelRows(r) == vs;
  }

  /** NDSparseClassifier: the estimator is fixed at construction; every method
      delegates to it through _fit_with or _predict_with. */
  datatype NDSparseClassifier = NDSparseClassifier(estimator: Estimator)
  {
    /** fit: returns what the estimator's fit returns (the trained estimator), not the adapter. */
    function Fit(x: NdArray<real>, y: SparseLabels): (r: Result<Estimator>)
      ensures !Indexable(x, y) ==> r.Err?
      ensures Indexable(x, y) ==> r == estimator.fit(Gather(x, y).value, y.data)
    {
      FitWith(estimator.fit, x, y)
    }

    /** partial_fit: the same gather, handed to the estimator's partial_fit. */
    function PartialFit(x: NdArray<real>, y: SparseLabels): (r: Result<Estimator>)
      ensures !Indexable(x, y) ==> r.Err?
      ensures Indexable(x, y) ==> r == estimator.partialFit(Gather(x, y).value, y.data)
    {
      FitWith(estimator.partialFit, x, y)
    }

    function Predict(x: NdArray<real>): (r: Result<NdArray<int>>)
      ensures r.Ok? ==> |x.shape| > 0 && r.value.shape == Init(x.shape)
    {
      PredictWith(estimator.predict, x)
    }

    function PredictProba(x: NdArray<real>): (r: Result<NdArray<real>>)
      ensures r.Ok? ==> |x.shape| > 0 && r.value.shape == Init(x.shape)
    {
      PredictWith(estimator.predictProba, x)
    }

    function PredictLogProba(x: NdArray<real>): (r: Result<NdArray<real>>)
      ensures r.Ok? ==> |x.shape| > 0 && r.value.shape == Init(x.shape)
    {
      PredictWith(estimator.predictLogProba, x)
    }

    function Transform(x: NdArray<real>): (r: Result<NdArray<real>>)
      ensures r.Ok? ==> |x.shape| > 0 && r.value.shape == Init(x.shape)
    {
      PredictWith(estimator.transform, x)
    }

    /** predict_proba with the intended reshape: one vector of class probabilities per
        spatial position, the class axis last. */
    function PredictProbaPerPixel(x: NdArray<real>): (r: Result<NdArray<real>>)
      ensures r.Ok? ==> |x.shape| > 0 && |r.value.shape| == |x.shape| && Init(r.value.shape) == Init(x.shape)
    {
      PredictPerPixelWith(estimator.predictProba, x)
    }

    /** fit_predict as written: self.fit(X, y).predict(X). Because fit returns the
        trained estimator, the estimator's own predict receives x unflattened. */
    function FitPredict(x: NdArray<real>, y: SparseLabels): (r: Result<NdArray<int>>)
      ensures r.Ok? ==> Fit(x, y).Ok? && r == Fit(x, y).value.predict(x)
      ensures !Indexable(x, y) ==> r.Err?
    {
      match Fit(x, y)
      case Err(e) => Err(e)
      case Ok(trained) => trained.predict(x)
    }

    /** fit_predict as evidently intended: train, then predict through the adapter. */
    function FitThenPredict(x: NdArray<real>, y: SparseLabels): (r: Result<NdArray<int>>)
      ensures r.Ok? ==> Fit(x, y).Ok? && |x.shape| > 0 && r.value.shape == Init(x.shape)
      ensures !Indexable(x, y) ==> r.Err?
    {
      match Fit(x, y)
      case Err(e) => Err(e)
      case Ok(trained) => NDSparseClassifier(trained).Predict(x)
    }
  }

  /** scikit-learn's input check: predict accepts only a matrix of samples × features. */
  ghost predicate PredictNeedsMatrix(e: Estimator)
  {
    forall a: NdArray<real> :: |a.shape| != 2 ==> e.predict(a).Err?
  }

  /** fit_predict as written fails on every feature array of an image (two or more
      spatial axes), because the trained estimator receives the array unflattened. */
  lemma FitPredictRejectsImages(clf: NDSparseClassifier, x: NdArray<real>, y: SparseLabels)
    requires clf.Fit(x, y).Ok? && PredictNeedsMatrix(clf.Fit(x, y).value) && |x.shape| >= 3
    ensures clf.FitPredict(x, y).Err?
  {
    var trained := clf.Fit(x, y).value;
    assert trained.predict(x).Err?;
  }

  /** The corrected fit_predict answers g(x[p]) at every spatial position p, whenever
      the trained estimator's predict is row-wise. */
  lemma FitThenPredictPointwise(clf: NDSparseClassifier, x: NdArray<real>, y: SparseLabels, g: seq<real> -> int, p: Index)
    requires clf.Fit(x, y).Ok? && RowWise(clf.Fit(x, y).value.predict, g)
    requires |x.shape| > 0 && Last(x.shape) > 0 && InBounds(Init(x.shape), p)
    ensures clf.FitThenPredict(x, y).Ok?
    ensures At(clf.FitThenPredict(x, y).value, p) == g(Vector(x, p))
  {
    PredictPointwise(clf.Fit(x, y).value.predict, g, x, p);
  }
}
