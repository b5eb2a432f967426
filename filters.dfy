/** The filter bank: six Gaussian-derivative filter classes, each with a
    scale and a fixed differential order, and FilterSet, which composes
    filters by concatenating their outputs along a trailing channel axis.
    The pixel arithmetic belongs to the fastfilters library and is a
    parameter here (Library); what is modelled is the kernel-size
    arithmetic and the shape and channel order of the composed output. */
module Filters {
  import opened Failures
  import opened NdArray

  /** One constructor per filter class; the two classes with an inner scale
      carry its ratio inner_k. */
  datatype Filter =
    | Gaussian(scale: real)
    | DifferenceOfGaussians(scale: real, innerK: real)
    | GaussianGradientMagnitude(scale: real)
    | LaplacianOfGaussian(scale: real)
    | StructureTensorEigenvalues(scale: real, innerK: real)
    | HessianOfGaussianEigenvalues(scale: real)
  {
    /** The differential order the class declares when it is defined. */
    function Order(): (o: nat)
      ensures o <= 2
      ensures o == 0 <==> Gaussian? || DifferenceOfGaussians?
      ensures o == 2 <==> LaplacianOfGaussian? || HessianOfGaussianEigenvalues?
    {
      match this
      case Gaussian(_) => 0
      case DifferenceOfGaussians(_, _) => 0
      case GaussianGradientMagnitude(_) => 1
      case LaplacianOfGaussian(_) => 2
      case StructureTensorEigenvalues(_, _) => 1
      case HessianOfGaussianEigenvalues(_) => 2
    }

    /** The support radius the filter reads around a pixel: (3 + order / 2) * scale. */
    function Radius(): real
    {
      (3.0 + Order() as real / 2.0) * scale
    }

    /** SingleFilter.kernel_size: ceil((3 + order / 2) * scale) + 1, which is the
        least integer k with k - 1 >= Radius(). */
    function KernelSize(): (k: int)
      ensures (k - 2) as real < Radius() <= (k - 1) as real
      ensures scale > 0.0 ==> k >= 2
    {
      assert scale > 0.0 ==> Radius() > 0.0;
      Ceil(Radius()) + 1
    }
  }

  /** The inner_k keyword default of DifferenceOfGaussians and StructureTensorEigenvalues. */
  const DefaultInnerK: real := 0.5

  /** math.ceil on an exact real: the least integer not below x. */
  function Ceil(x: real): (n: int)
    ensures x <= n as real < x + 1.0
  {
    -((-x).Floor)
  }

  lemma {:induction false} CeilMonotone(x: real, y: real)
    requires x <= y
    ensures Ceil(x) <= Ceil(y)
  {
  }

  /** The kernel size grows with the scale and with the differential order. */
  lemma KernelSizeMonotone(f: Filter, g: Filter)
    requires f.Order() <= g.Order() && 0.0 <= f.scale <= g.scale
    ensures f.KernelSize() <= g.KernelSize()
  {
    var a, b := 3.0 + f.Order() as real / 2.0, 3.0 + g.Order() as real / 2.0;
    assert a * f.scale <= a * g.scale;
    assert a * g.scale <= b * g.scale;
    CeilMonotone(f.Radius(), g.Radius());
  }

  /** Kernel sizes at the scales 0.3, 1.0 and 5.0 for the orders 0, 1 and 2. */
  lemma KernelSizeExamples()
    ensures Gaussian(0.3).KernelSize() == 2
    ensures GaussianGradientMagnitude(0.3).KernelSize() == 3
    ensures LaplacianOfGaussian(0.3).KernelSize() == 3
    ensures Gaussian(1.0).KernelSize() == 4
    ensures GaussianGradientMagnitude(1.0).KernelSize() == 5
    ensures LaplacianOfGaussian(1.0).KernelSize() == 5
    ensures Gaussian(5.0).KernelSize() == 16
    ensures GaussianGradientMagnitude(5.0).KernelSize() == 19
    ensures LaplacianOfGaussian(5.0).KernelSize() == 21
  {
  }

  /** Filter.fit: filters are stateless, so fitting hands back the filter itself. */
  function Fit<F>(f: F): (r: F)
    ensures r == f
  {
    f
  }

  /** The numeric library: the array a filter computes from an image. */
  type Library = (Filter, NdArray<real>) -> NdArray<real>

  /** The eigenvalue filters give one value per image axis at each pixel. */
  predicate IsEigenvalueFilter(f: Filter)
  {
    f.StructureTensorEigenvalues? || f.HessianOfGaussianEigenvalues?
  }

  /** Shape of the library's output for an image of shape s: the image's own
      shape for a scalar filter, one extra axis of |s| eigenvalues otherwise. */
  function OutputShape(f: Filter, s: Shape): Shape
  {
    if IsEigenvalueFilter(f) then s + [|s|] else s
  }

  /** Channels a filter contributes to the feature vector of a pixel. */
  function ChannelCount(f: Filter, rank: nat): nat
  {
    if IsEigenvalueFilter(f) then rank else 1
  }

  function TotalChannels(fs: seq<Filter>, rank: nat): nat
  {
    if fs == [] then 0 else ChannelCount(fs[0], rank) + TotalChannels(fs[1..], rank)
  }

  /** The library produces the documented output shape for every member. */
  predicate Conforms(lib: Library, fs: seq<Filter>, x: NdArray<real>)
  {
    forall i :: 0 <= i < |fs| ==> lib(fs[i], x).shape == OutputShape(fs[i], x.shape)
  }

  /** Largest member kernel size of a non-empty sequence of filters. */
  function MaxKernelSize(fs: seq<Filter>): (m: int)
    requires |fs| > 0
    ensures forall i :: 0 <= i < |fs| ==> fs[i].KernelSize() <= m
    ensures exists i :: 0 <= i < |fs| && fs[i].KernelSize() == m
  {
    if |fs| == 1 then fs[0].KernelSize()
    else
      var rest := MaxKernelSize(fs[1..]);
      var i :| 0 <= i < |fs[1..]| && fs[1..][i].KernelSize() == rest;
      assert fs[i + 1].KernelSize() == rest;
      if fs[0].KernelSize() >= rest then fs[0].KernelSize() else rest
  }

  /** Each member's output reshaped to the image shape plus one trailing channel
      axis, in member order; the first output that does not fit fails. */
  function ReshapeEach(fs: seq<Filter>, x: NdArray<real>, lib: Library): (r: Result<seq<NdArray<real>>>)
    ensures r.Ok? <==> forall i :: 0 <= i < |fs| ==> ReshapeInferLast(lib(fs[i], x), x.shape).Ok?
    ensures r.Ok? ==> |r.value| == |fs|
    ensures r.Ok? ==> forall i :: 0 <= i < |fs| ==> r.value[i] == ReshapeInferLast(lib(fs[i], x), x.shape).value
    ensures r.Err? ==> r.error == BadReshape
  {
    if forall i :: 0 <= i < |fs| ==> ReshapeInferLast(lib(fs[i], x), x.shape).Ok? then
      Ok(seq(|fs|, i requires 0 <= i < |fs| => ReshapeInferLast(lib(fs[i], x), x.shape).value))
    else
      Err(BadReshape)
  }

  /** FilterSet: an ordered composition of filters. */
  datatype FilterSet = FilterSet(filters: seq<Filter>)
  {
    /** FilterSet.kernel_size: the largest member kernel size; max() of no members raises. */
    function KernelSize(): (r: Result<int>)
      ensures r.Ok? <==> |filters| > 0
      ensures r.Ok? ==> forall i :: 0 <= i < |filters| ==> filters[i].KernelSize() <= r.value
      ensures r.Ok? ==> exists i :: 0 <= i < |filters| && filters[i].KernelSize() == r.value
      ensures |filters| == 0 ==> r == Err(EmptyMax)
    {
      if |filters| == 0 then Err(EmptyMax) else Ok(MaxKernelSize(filters))
    }

    /** FilterSet.transform: every member's output reshaped to x.shape + (-1,) and
        concatenated along the last axis in member order. */
    function Transform(x: NdArray<real>, lib: Library): (r: Result<NdArray<real>>)
      ensures r.Ok? ==> |filters| > 0 && |r.value.shape| == |x.shape| + 1 && Init(r.value.shape) == x.shape
      ensures |filters| == 0 ==> r == Err(EmptyConcatenate)
    {
      var ys := ReshapeEach(filters, x, lib);
      if ys.Err? then Err(ys.error)
      else
        var r := ConcatenateLast(ys.value);
        assert r.Ok? ==> Init(ys.value[0].shape) == x.shape;
        r
    }
  }

  lemma {:induction false} ChannelsOfReshaped(fs: seq<Filter>, ys: seq<NdArray<real>>, x: NdArray<real>)
    requires |ys| == |fs|
    requires forall i :: 0 <= i < |fs| ==> LastDim(ys[i]) == ChannelCount(fs[i], |x.shape|)
    ensures Channels(ys) == TotalChannels(fs, |x.shape|)
    decreases |fs|
  {
    if fs != [] {
      ChannelsOfReshaped(fs[1..], ys[1..], x);
    }
  }

  /** A member's output reshaped to x.shape + (-1,) has ChannelCount channels, provided
      the image has at least one pixel. */
  lemma ReshapedMember(f: Filter, x: NdArray<real>, lib: Library)
    requires lib(f, x).shape == OutputShape(f, x.shape) && Size(x.shape) > 0
    ensures ReshapeInferLast(lib(f, x), x.shape).Ok?
    ensures ReshapeInferLast(lib(f, x), x.shape).value.shape == x.shape + [ChannelCount(f, |x.shape|)]
  {
    var y := lib(f, x);
    var n, c := Size(x.shape), ChannelCount(f, |x.shape|);
    assert |y.data| == n * c by {
      if IsEigenvalueFilter(f) {
        SizeConcat(x.shape, [c]);
        SizeOfOne(c);
      } else {
        assert y.shape == x.shape;
      }
    }
    assert n * c == c * n + 0;
    DivModOfMulAdd(c, 0, n);
    assert |y.data| / n == c && |y.data| % n == 0;
  }

  /** With a library that honours the output shapes, transform succeeds exactly when
      the bank is non-empty and the image has a pixel, and the result has the image's
      shape plus one axis holding every member's channels. */
  lemma TransformShape(fs: FilterSet, x: NdArray<real>, lib: Library)
    requires Conforms(lib, fs.filters, x)
    ensures fs.Transform(x, lib).Ok? <==> |fs.filters| > 0 && Size(x.shape) > 0
    ensures fs.Transform(x, lib).Ok? ==>
              fs.Transform(x, lib).value.shape == x.shape + [TotalChannels(fs.filters, |x.shape|)]
  {
    var ys := ReshapeEach(fs.filters, x, lib);
    if Size(x.shape) > 0 {
      forall i | 0 <= i < |fs.filters|
        ensures ReshapeInferLast(lib(fs.filters[i], x), x.shape).Ok?
        ensures ReshapeInferLast(lib(fs.filters[i], x), x.shape).value.shape
                == x.shape + [ChannelCount(fs.filters[i], |x.shape|)]
      {
        ReshapedMember(fs.filters[i], x, lib);
      }
      assert ys.Ok?;
      forall i | 0 <= i < |fs.filters|
        ensures |ys.value[i].shape| > 0 && Init(ys.value[i].shape) == x.shape
        ensures LastDim(ys.value[i]) == ChannelCount(fs.filters[i], |x.shape|)
      {
        assert Init(x.shape + [ChannelCount(fs.filters[i], |x.shape|)]) == x.shape;
      }
      ChannelsOfReshaped(fs.filters, ys.value, x);
    } else if |fs.filters| > 0 {
      assert !ReshapeInferLast(lib(fs.filters[0], x), x.shape).Ok?;
    }
  }

  /** Channel offset at which member i starts in the feature vector. */
  function ChannelStart(fs: seq<Filter>, i: nat, rank: nat): nat
    requires i <= |fs|
  {
    TotalChannels(fs[..i], rank)
  }

  /** What member f contributes at pixel p: its scalar response, or the vector of its
      eigenvalues there. */
  function MemberVector(f: Filter, y: NdArray<real>, p: Index): seq<real>
    requires if IsEigenvalueFilter(f) then |y.shape| > 0 && InBounds(Init(y.shape), p) else InBounds(y.shape, p)
  {
    if IsEigenvalueFilter(f) then Vector(y, p) else [At(y, p)]
  }

  lemma {:induction false} TotalChannelsSnoc(fs: seq<Filter>, f: Filter, rank: nat)
    ensures TotalChannels(fs + [f], rank) == TotalChannels(fs, rank) + ChannelCount(f, rank)
    decreases |fs|
  {
    if fs == [] {
      assert [f][1..] == [];
    } else {
      assert (fs + [f])[1..] == fs[1..] + [f];
      TotalChannelsSnoc(fs[1..], f, rank);
    }
  }

  /** With a conforming library and an image with a pixel, every member reshapes to
      x.shape + [ChannelCount], so the first i reshaped members hold ChannelStart(i) channels. */
  lemma ReshapeEachChannels(fs: seq<Filter>, x: NdArray<real>, lib: Library, i: nat)
    requires Conforms(lib, fs, x) && Size(x.shape) > 0 && i <= |fs|
    ensures ReshapeEach(fs, x, lib).Ok?
    ensures forall j :: 0 <= j < |fs| ==>
              ReshapeEach(fs, x, lib).value[j].shape == x.shape + [ChannelCount(fs[j], |x.shape|)]
    ensures Channels(ReshapeEach(fs, x, lib).value[..i]) == ChannelStart(fs, i, |x.shape|)
  {
    forall j | 0 <= j < |fs|
      ensures ReshapeInferLast(lib(fs[j], x), x.shape).Ok?
      ensures ReshapeInferLast(lib(fs[j], x), x.shape).value.shape == x.shape + [ChannelCount(fs[j], |x.shape|)]
    {
      ReshapedMember(fs[j], x, lib);
    }
    var ys := ReshapeEach(fs, x, lib).value;
    forall j | 0 <= j < i
      ensures LastDim(ys[..i][j]) == ChannelCount(fs[..i][j], |x.shape|)
    {
      assert ys[..i][j] == ys[j];
    }
    ChannelsOfReshaped(fs[..i], ys[..i], x);
  }

  /** The reshaped output of member f, read at pixel p, is what f computes there. */
  lemma ReshapedMemberVector(f: Filter, x: NdArray<real>, lib: Library, p: Index)
    requires lib(f, x).shape == OutputShape(f, x.shape) && Size(x.shape) > 0 && InBounds(x.shape, p)
    ensures ReshapeInferLast(lib(f, x), x.shape).Ok?
    ensures Init(ReshapeInferLast(lib(f, x), x.shape).value.shape) == x.shape
    ensures IsEigenvalueFilter(f) ==> Init(lib(f, x).shape) == x.shape
    ensures Vector(ReshapeInferLast(lib(f, x), x.shape).value, p) == MemberVector(f, lib(f, x), p)
  {
    ReshapedMember(f, x, lib);
    var y := lib(f, x);
    var z := ReshapeInferLast(y, x.shape).value;
    assert Init(x.shape + [ChannelCount(f, |x.shape|)]) == x.shape;
    if IsEigenvalueFilter(f) {
      assert z == y;
    } else {
      assert z.data == y.data && y.shape == x.shape;
      RowsAt(y.data, Size(x.shape), 1, Offset(x.shape, p), 0);
    }
  }

  /** Member i's reshaped output starts at ChannelStart(i) and ends at ChannelStart(i + 1). */
  lemma MemberChannels(fs: seq<Filter>, x: NdArray<real>, lib: Library, i: nat)
    requires Conforms(lib, fs, x) && Size(x.shape) > 0 && i < |fs|
    ensures ReshapeEach(fs, x, lib).Ok?
    ensures var ys := ReshapeEach(fs, x, lib).value;
            Channels(ys[..i]) == ChannelStart(fs, i, |x.shape|) &&
            ys[i].shape == x.shape + [ChannelCount(fs[i], |x.shape|)] &&
            LastDim(ys[i]) == ChannelCount(fs[i], |x.shape|) &&
            ChannelStart(fs, i + 1, |x.shape|) == ChannelStart(fs, i, |x.shape|) + ChannelCount(fs[i], |x.shape|)
  {
    var rank := |x.shape|;
    ReshapeEachChannels(fs, x, lib, i);
    var ys := ReshapeEach(fs, x, lib).value;
    assert LastDim(ys[i]) == ChannelCount(fs[i], rank) by {
      assert ys[i].shape == x.shape + [ChannelCount(fs[i], rank)];
    }
    assert fs[..i + 1] == fs[..i] + [fs[i]];
    TotalChannelsSnoc(fs[..i], fs[i], rank);
  }

  /** All reshaped members together hold the total channel count, and the first of
      them has the image's pixel axes. */
  lemma AllChannels(fs: seq<Filter>, x: NdArray<real>, lib: Library)
    requires Conforms(lib, fs, x) && Size(x.shape) > 0 && |fs| > 0
    ensures ReshapeEach(fs, x, lib).Ok?
    ensures Channels(ReshapeEach(fs, x, lib).value) == TotalChannels(fs, |x.shape|)
    ensures Init(ReshapeEach(fs, x, lib).value[0].shape) == x.shape
  {
    ReshapeEachChannels(fs, x, lib, |fs|);
    var ys := ReshapeEach(fs, x, lib).value;
    assert ys[..|fs|] == ys && fs[..|fs|] == fs;
    assert ys[0].shape == x.shape + [ChannelCount(fs[0], |x.shape|)];
  }

  /** Channel offsets never exceed the total. */
  lemma {:induction false} ChannelStartMono(fs: seq<Filter>, i: nat, rank: nat)
    requires i <= |fs|
    ensures ChannelStart(fs, i, rank) <= TotalChannels(fs, rank)
    decreases |fs| - i
  {
    if i < |fs| {
      ChannelStartMono(fs, i + 1, rank);
      assert fs[..i + 1] == fs[..i] + [fs[i]];
      TotalChannelsSnoc(fs[..i], fs[i], rank);
    } else {
      assert fs[..i] == fs;
    }
  }

  /** The channels [ChannelStart(i), ChannelStart(i + 1)) of the feature vector at
      pixel p are exactly what member i computes at p. */
  lemma TransformChannels(fs: FilterSet, x: NdArray<real>, lib: Library, p: Index, i: nat)
    requires Conforms(lib, fs.filters, x)
    requires fs.Transform(x, lib).Ok? && InBounds(x.shape, p) && i < |fs.filters|
    ensures fs.Transform(x, lib).value.shape == x.shape + [TotalChannels(fs.filters, |x.shape|)]
    ensures ChannelStart(fs.filters, i, |x.shape|) <= ChannelStart(fs.filters, i + 1, |x.shape|)
              <= TotalChannels(fs.filters, |x.shape|)
    ensures IsEigenvalueFilter(fs.filters[i]) ==>
              |lib(fs.filters[i], x).shape| > 0 && Init(lib(fs.filters[i], x).shape) == x.shape
    ensures !IsEigenvalueFilter(fs.filters[i]) ==> lib(fs.filters[i], x).shape == x.shape
    ensures Vector(fs.Transform(x, lib).value, p)[ChannelStart(fs.filters, i, |x.shape|) .. ChannelStart(fs.filters, i + 1, |x.shape|)]
         == MemberVector(fs.filters[i], lib(fs.filters[i], x), p)
  {
    TransformShape(fs, x, lib);
    var f := fs.filters[i];
    MemberChannels(fs.filters, x, lib, i);
    AllChannels(fs.filters, x, lib);
    ChannelStartMono(fs.filters, i + 1, |x.shape|);
    var ys := ReshapeEach(fs.filters, x, lib).value;
    assert fs.Transform(x, lib) == ConcatenateLast(ys);
    ConcatenateLastVector(ys, p, i);
    ReshapedMemberVector(f, x, lib, p);
    assert ys[i] == ReshapeInferLast(lib(f, x), x.shape).value;
  }

  lemma {:induction false} ChannelsSnoc(ys: seq<NdArray<real>>, y: NdArray<real>)
    ensures Channels(ys + [y]) == Channels(ys) + LastDim(y)
    decreases |ys|
  {
    if ys == [] {
      assert [y][1..] == [];
    } else {
      assert (ys + [y])[1..] == ys[1..] + [y];
      ChannelsSnoc(ys[1..], y);
    }
  }
}
