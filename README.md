# ilastik-napari pixel classification, modelled in Dafny

This project models the core of the ilastik napari plugin. It covers:

- the image filters and the filter bank that turns an image into a per-pixel feature map
  (`src/ilastik/napari/filters.py`);
- the adapter that trains a flat scikit-learn estimator on the sparsely labelled pixels of
  an N-dimensional feature map and predicts for every pixel
  (`src/napari_ilastik/classifier.py`);
- the checkbox-table dialog that selects filters and scales, together with the
  `MutableMapping` view of its Qt item model (`src/napari_ilastik/gui.py`);
- the widget glue (`src/ilastik/napari/plugin.py`): the default feature selection, the
  filter bank built from a selection, the Run-button predicate, the classification
  pipeline and the two output layers.

Modules, one per file:

- `Failures` (`failures.dfy`) names the Python exceptions the core can raise. They surface
  as `Result.Err`.
- `NdArray` (`ndarray.dfy`) models the numpy semantics the core relies on. An array is a
  shape and a flat row-major buffer, with `Size(shape) == |data|`. The module covers
  indexing, `reshape` (with `-1`), `concatenate(axis=-1)`, `moveaxis(-1, 0)`,
  `argmax(axis=0)` and elementwise maps.
- `Filters` (`filters.py`) holds the filter classes as one datatype with `order`,
  `kernel_size` and `inner_k`, and the `FilterSet` with its `transform` and `kernel_size`.
- `Classifier` (`classifier.py`) holds `sparse.COO.from_numpy`, fancy indexing by the label
  coordinates, `_fit_with`, `_predict_with` and `NDSparseClassifier`. The estimator is a
  record of its methods as functions.
- `Gui` (`gui.py`) has the following parts:
  - `rc_pairs`;
  - `ModelDict` as a class over a 2-D array of cells. Its methods `SetItem`, `DelItem` and
    `Update` model `__setitem__`, `__delitem__` and `update`. The read-only
    `__getitem__`, `__iter__` and `__len__` are the functions `GetItem`, `Iter` and `Len`
    over the grid value `Source()` that the class exposes;
  - `CheckboxTableDialog` as a class with its header, select-all and accept handlers.
- `Plugin` (`plugin.py`) holds `filter_list`, `scale_list`, the default `features_state`,
  the `FilterSet` of `_on_run_clicked`, `_update_widgets`, `_pixel_classification`,
  `_update_output_layers` and the segmentation labels.

The following are parameters rather than code:

- `Filters.Library` stands for the fastfilters library: the filter applied to an image.
  The model fixes only the output shapes each filter produces (`Filters.Conforms`).
- `Classifier.Estimator` stands for a scikit-learn estimator. Its `fit` returns the trained
  estimator, and its prediction methods map a feature matrix to a result.

## Model

| member | source | states |
|---|---|---|
| Filters.Filter.Order | src/ilastik/napari/filters.py:40-79 | the derivative order of each filter class: 0 for Gaussian and DifferenceOfGaussians, 1 for GaussianGradientMagnitude and StructureTensorEigenvalues, 2 for LaplacianOfGaussian and HessianOfGaussianEigenvalues |
| Filters.Filter.KernelSize | src/ilastik/napari/filters.py:32-35 | the kernel size is the least integer at or above (3 + order/2)·scale, plus one; at least 2 for a positive scale |
| Filters.Ceil | src/ilastik/napari/filters.py:35 | math.ceil: the least integer not below x |
| Filters.CeilMonotone | src/ilastik/napari/filters.py:35 | ceil is monotone |
| Filters.KernelSizeMonotone | src/ilastik/napari/filters.py:32-35 | a higher order or a larger scale never gives a smaller kernel |
| Filters.KernelSizeExamples | src/ilastik/napari/filters.py:32-35 | kernel sizes at the scales 0.3, 1.0 and 5.0 for orders 0, 1 and 2 |
| Filters.Fit | src/ilastik/napari/filters.py:10-11 | fit returns the filter itself |
| Filters.MaxKernelSize | src/ilastik/napari/filters.py:91-93 | the maximum of the member kernel sizes: no member exceeds it and one attains it |
| Filters.FilterSet.KernelSize | src/ilastik/napari/filters.py:91-93 | the maximum kernel size of the members; ValueError (max of an empty sequence) when there are none |
| Filters.ReshapeEach | src/ilastik/napari/filters.py:88 | every member output reshaped to the image shape plus one channel axis; fails iff some output does not divide |
| Filters.FilterSet.Transform | src/ilastik/napari/filters.py:86-89 | the feature map has the image shape plus one channel axis; an empty filter set raises from concatenate |
| Filters.ReshapedMember | src/ilastik/napari/filters.py:88 | a member output of the right shape reshapes to the image shape plus its channel count |
| Filters.ChannelsOfReshaped | src/ilastik/napari/filters.py:88-89 | the channel count of the concatenation is the sum of the members' channel counts |
| Filters.TransformShape | src/ilastik/napari/filters.py:86-89 | for a conforming library, transform succeeds iff the set and the image are non-empty, with shape image + [total channels] |
| Filters.TotalChannelsSnoc | src/ilastik/napari/filters.py:88-89 | total channels are additive over the member list |
| Filters.ReshapeEachChannels | src/ilastik/napari/filters.py:88-89 | the reshaped outputs of the first i members span the channels before member i |
| Filters.ReshapedMemberVector | src/ilastik/napari/filters.py:88 | the channel vector of a reshaped member output at a pixel is the filter's response at that pixel (the eigenvalue vector for the eigenvalue filters) |
| Filters.TransformChannels | src/ilastik/napari/filters.py:86-89 | at every pixel, the feature vector holds member i's response in its own channel slice, in member order |
| Filters.MemberChannels | src/ilastik/napari/filters.py:88-89 | member i's channels start where the earlier members' end and span its own channel count |
| Filters.AllChannels | src/ilastik/napari/filters.py:88-89 | the reshaped members together hold the total channel count over the image's pixel axes |
| Filters.ChannelStartMono | src/ilastik/napari/filters.py:89 | no member's channel offset exceeds the total |
| Filters.ChannelsSnoc | src/ilastik/napari/filters.py:89 | channel counts add up under concatenation |
| NdArray.Offset | src/napari_ilastik/classifier.py:13-14 | the row-major position of an in-bounds index lies inside the buffer |
| NdArray.Unflatten | src/napari_ilastik/classifier.py:13-14 | every buffer position is the row-major position of an in-bounds index |
| NdArray.UnflattenOffset | src/napari_ilastik/classifier.py:13-14 | unflattening the row-major position of an index gives the index back |
| NdArray.OffsetInjective | src/napari_ilastik/classifier.py:13-14 | two in-bounds indices have the same row-major position iff they are equal, so flattening the pixels and reshaping back is a bijection |
| NdArray.Reshape | src/napari_ilastik/classifier.py:14 | reshape succeeds iff the sizes agree; the buffer is unchanged |
| NdArray.ReshapeInferLast | src/ilastik/napari/filters.py:88 | reshape((*shape, -1)) succeeds iff the prefix size divides the buffer, inferring the last axis |
| NdArray.ReshapeInferFirst | src/napari_ilastik/classifier.py:14 | reshape((-1, c)) succeeds iff c divides the buffer, inferring the first axis |
| NdArray.ConcatenateLast | src/ilastik/napari/filters.py:89 | concatenate(axis=-1) succeeds iff the parts agree on all other axes; the channel axis is the sum; no parts is an error |
| NdArray.ConcatenateLastVector | src/ilastik/napari/filters.py:89 | at every pixel, part i occupies its own slice of the concatenated vector |
| NdArray.MoveLastAxisFirst | src/ilastik/napari/plugin.py:35 | moveaxis(-1, 0) moves the last axis to the front and fails on a 0-d array |
| NdArray.MoveLastAxisFirstAt | src/ilastik/napari/plugin.py:35 | element [j] + p of the result is element p + [j] of the input |
| NdArray.FirstArgMax | src/ilastik/napari/plugin.py:209 | argmax: an index of a maximum, and no earlier index attains it |
| NdArray.ArgMaxFirstAxis | src/ilastik/napari/plugin.py:209 | argmax(axis=0) raises ValueError iff the first axis is empty; a 0-d array gives the scalar 0; otherwise the first axis is dropped |
| NdArray.ArgMaxFirstAxisAt | src/ilastik/napari/plugin.py:209 | the result at p is the first argmax of the column at p |
| NdArray.Map | src/ilastik/napari/plugin.py:209 | an elementwise operation keeps the shape and applies at every element |
| Classifier.NonZeroBelow | src/ilastik/napari/plugin.py:32 | the nonzero labels among the first k buffer positions, as COO entries in buffer order |
| Classifier.FromDense | src/ilastik/napari/plugin.py:32 | COO.from_numpy holds exactly the nonzero labels, each with its coordinate, in strictly increasing row-major order |
| Classifier.OffsetDetermines | src/napari_ilastik/classifier.py:10 | a coordinate is determined by its row-major offset |
| Classifier.SubBlock | src/napari_ilastik/classifier.py:10 | the block X[c] selected by a partial index has the size of the remaining axes |
| Classifier.Gather | src/napari_ilastik/classifier.py:10 | X[tuple(y.coords)] succeeds iff there are no more index arrays than axes and every coordinate is in range; row j is the block at coordinate j |
| Classifier.GatherRowIsFeatureVector | src/napari_ilastik/classifier.py:10 | with labels over all axes but the last, the gathered matrix has one row per label, and that row is the label's feature vector |
| Classifier.FitWith | src/napari_ilastik/classifier.py:9-10 | _fit_with calls the estimator on the gathered rows and the label values, and fails when the labels cannot index X |
| Classifier.TrainingPairs | src/napari_ilastik/classifier.py:9-10 | training pair j is the feature vector of a labelled pixel and its nonzero label |
| Classifier.PredictWith | src/napari_ilastik/classifier.py:13-14 | a successful _predict_with result has the shape of X without its last axis; a 0-d X raises |
| Classifier.MapRows | src/napari_ilastik/classifier.py:14 | a row-wise estimator maps an n × c matrix to n values |
| Classifier.FlattenedRows | src/napari_ilastik/classifier.py:14 | reshape((-1, X.shape[-1])) lists the pixels' feature vectors in row-major order |
| Classifier.PredictPointwise | src/napari_ilastik/classifier.py:13-14 | for a per-row estimator, the result at pixel p is the estimator's value for p's feature vector |
| Classifier.MapRowsVector | src/napari_ilastik/classifier.py:33 | a row-wise estimator with k outputs per row maps an n × c matrix to n × k |
| Classifier.PredictWithRejectsClassVectors | src/napari_ilastik/classifier.py:14 | as written, a result with k ≠ 1 values per pixel cannot be reshaped to X.shape[:-1]: predict_proba raises on every non-empty image |
| Classifier.ProductNotSelf | src/napari_ilastik/classifier.py:14 | n·k ≠ n for n > 0 and k ≠ 1 |
| Classifier.PredictPerPixelWith | src/napari_ilastik/classifier.py:14 | the corrected reshape keeps the pixel axes and puts the per-pixel result last |
| Classifier.PredictPerPixelPointwise | src/napari_ilastik/classifier.py:13-14 | corrected: the class vector at pixel p is the estimator's vector for p's features |
| Classifier.NDSparseClassifier.Fit | src/napari_ilastik/classifier.py:23-24 | fit trains the estimator on the labelled pixels and returns the estimator's fit result |
| Classifier.NDSparseClassifier.PartialFit | src/napari_ilastik/classifier.py:26-27 | partial_fit does the same through the estimator's partial_fit |
| Classifier.NDSparseClassifier.Predict | src/napari_ilastik/classifier.py:29-30 | a successful predict has the pixel shape of X |
| Classifier.NDSparseClassifier.PredictProba | src/napari_ilastik/classifier.py:32-33 | a successful predict_proba, as written, has the pixel shape of X |
| Classifier.NDSparseClassifier.PredictLogProba | src/napari_ilastik/classifier.py:35-36 | a successful predict_log_proba, as written, has the pixel shape of X |
| Classifier.NDSparseClassifier.Transform | src/napari_ilastik/classifier.py:38-39 | a successful transform, as written, has the pixel shape of X |
| Classifier.NDSparseClassifier.PredictProbaPerPixel | src/napari_ilastik/classifier.py:32-33 | corrected predict_proba: the pixel axes of X followed by the class axis |
| Classifier.NDSparseClassifier.FitPredict | src/napari_ilastik/classifier.py:41-42 | as written, fit_predict calls predict of whatever fit returned, on the unflattened X |
| Classifier.FitPredictRejectsImages | src/napari_ilastik/classifier.py:41-42 | as written, fit_predict fails on any feature map of rank 3 or more when the fitted estimator accepts only matrices |
| Classifier.NDSparseClassifier.FitThenPredict | src/napari_ilastik/classifier.py:41-42 | corrected: fit, then predict through the adapter; the result has the pixel shape of X |
| Classifier.FitThenPredictPointwise | src/napari_ilastik/classifier.py:41-42 | corrected fit_predict gives at every pixel the trained estimator's value for its feature vector |
| Gui.Range | src/napari_ilastik/gui.py:41-42 | range(n): the integers 0..n-1 in increasing order |
| Gui.RowOf | src/napari_ilastik/gui.py:11 | one row of the pairs, with the given columns in order |
| Gui.Product | src/napari_ilastik/gui.py:41-45 | the nested generator over rows and columns yields every pair exactly once, in lexicographic order |
| Gui.RcPairs | src/napari_ilastik/gui.py:9-11 | rc_pairs(n, m) yields exactly the n·m keys of the grid, in row-major order |
| Gui.RcPairsDistinct | src/napari_ilastik/gui.py:9-11 | rc_pairs never repeats a key |
| Gui.TableExt | src/napari_ilastik/gui.py:17-24 | two grids of the same size with the same cells are equal |
| Gui.Contents | src/napari_ilastik/gui.py:26-30 | the mapping view: the keys are the enabled cells, and each maps to its check state |
| Gui.Empty | src/napari_ilastik/gui.py:17-24 | a fresh grid has every cell disabled, so the mapping is empty |
| Gui.GetItem | src/napari_ilastik/gui.py:26-30 | __getitem__ returns the check state iff the key is in the mapping; KeyError for a disabled cell; a failure for a key outside the grid |
| Gui.Assign | src/napari_ilastik/gui.py:32-35 | __setitem__ enables the cell and sets its check state, leaving every other cell alone |
| Gui.Disable | src/napari_ilastik/gui.py:37-38 | __delitem__ disables the cell and keeps its check state, leaving every other cell alone |
| Gui.ContentsChar | src/napari_ilastik/gui.py:26-30 | the mapping is determined by the enabled cells and their check states |
| Gui.AssignContents | src/napari_ilastik/gui.py:32-35 | after d[k] = v the mapping is the old one updated at k, and d[k] reads back v |
| Gui.DisableContents | src/napari_ilastik/gui.py:37-38 | after del d[k] the mapping is the old one without k, and d[k] raises KeyError |
| Gui.Lines | src/napari_ilastik/gui.py:41-42 | the rows (or columns) iterated: all of them in order, or only the given one |
| Gui.EnabledAmong | src/napari_ilastik/gui.py:43-45 | the enabled keys among the candidates, in their order |
| Gui.LexLessTrans | src/napari_ilastik/gui.py:43-45 | the iteration order is transitive |
| Gui.IterDefined | src/napari_ilastik/gui.py:40-45 | the iterated cells exist iff the given row and column are inside the grid, unless the other axis is empty |
| Gui.Iter | src/napari_ilastik/gui.py:40-45 | __iter__ yields exactly the keys of the mapping in the selected row or column, in row-major order; a row or column outside the grid fails |
| Gui.DistinctCard | src/napari_ilastik/gui.py:47-48 | a strictly increasing key sequence has as many elements as distinct keys |
| Gui.Len | src/napari_ilastik/gui.py:47-48 | __len__ is the number of keys in the mapping |
| Gui.EmptyIter | src/napari_ilastik/gui.py:17-24 | a fresh ModelDict iterates nothing and has length 0 |
| Gui.IterEnabled | src/napari_ilastik/gui.py:43-45 | every iterated key is an enabled cell |
| Gui.AllValues | src/napari_ilastik/gui.py:112-114 | all(model[k] for k in keys) holds iff every key is checked |
| Gui.AnyValue | src/napari_ilastik/gui.py:109 | any of the values holds iff some key is checked |
| Gui.CheckedKeys | src/napari_ilastik/gui.py:101 | the keys whose value is True are exactly the enabled and checked cells |
| Gui.AnyChecked | src/napari_ilastik/gui.py:108-109 | the OK button is enabled iff some key is selected |
| Gui.AssignAll | src/napari_ilastik/gui.py:115-116 | assigning v to each key in turn keeps the grid's size |
| Gui.AssignAllStep | src/napari_ilastik/gui.py:115-116 | one more loop iteration is one more assignment |
| Gui.AssignAllAt | src/napari_ilastik/gui.py:115-116 | after the loop, each assigned key's cell is enabled with value v and every other cell is unchanged |
| Gui.Paint | src/napari_ilastik/gui.py:111-122 | the enabled cells of a selection all get value v; nothing else changes |
| Gui.AssignAllIsPaint | src/napari_ilastik/gui.py:115-116 | the loop over __iter__'s keys paints exactly the selection |
| Gui.PaintKeepsKeys | src/napari_ilastik/gui.py:115-116 | painting a selection never changes which keys any iteration yields |
| Gui.AssignAllKeepsKeys | src/napari_ilastik/gui.py:115-116 | after any number of the loop's assignments to enabled keys, every iteration yields the keys it yielded at the start, so the lazy iteration that the loop mutates sees the keys of the start |
| Gui.IterSameFlags | src/napari_ilastik/gui.py:40-45 | the iteration depends only on the enabled flags |
| Gui.EnabledSame | src/napari_ilastik/gui.py:43-45 | the enabled filter depends only on the enabled flags |
| Gui.HeaderToggle | src/napari_ilastik/gui.py:111-116 | a header click sets every key of its row or column to not-all-checked; when there are keys, the all-checked state flips |
| Gui.AssignItems | src/napari_ilastik/gui.py:68 | update(state) assigns each item in turn |
| Gui.MapUpdateUnion | src/napari_ilastik/gui.py:68 | map union and update commute |
| Gui.AssignItemsContents | src/napari_ilastik/gui.py:68 | after update(state) the mapping is the old one overridden by the state's items, the last of equal keys winning |
| Gui.ModelDict.Source | src/napari_ilastik/gui.py:15 | the item model as a grid value, cell by cell |
| Gui.ModelDict.constructor | src/napari_ilastik/gui.py:17-24 | a grid of the given labels whose cells are all disabled |
| Gui.ModelDict.SetItem | src/napari_ilastik/gui.py:32-35 | __setitem__ updates exactly the key's cell; a key outside the grid fails with nothing changed |
| Gui.ModelDict.DelItem | src/napari_ilastik/gui.py:37-38 | __delitem__ disables exactly the key's cell; a key outside the grid fails with nothing changed |
| Gui.ModelDict.Update | src/napari_ilastik/gui.py:68 | update succeeds iff every key is in the grid, and the grid is then the items assigned in order; otherwise it stops at the first key outside the grid, with exactly the items before it assigned |
| Gui.CheckboxTableDialog.constructor | src/napari_ilastik/gui.py:99-102 | the dialog's selection is the checked keys, and OK is enabled iff there is one |
| Gui.CheckboxTableDialog.Open | src/napari_ilastik/gui.py:54-102 | ValueError iff the rows, the columns or the state is empty; otherwise the model is the state over a fresh grid, selected is its checked keys and OK reflects any |
| Gui.CheckboxTableDialog.Accept | src/napari_ilastik/gui.py:104-106 | accept records the checked keys as selected |
| Gui.CheckboxTableDialog.UpdateWidgets | src/napari_ilastik/gui.py:108-109 | OK is enabled iff some key is checked |
| Gui.CheckboxTableDialog.HandleHeader | src/napari_ilastik/gui.py:111-117 | a header click paints its row or column with the negation of all-checked and updates OK; a row or column outside the grid fails with the grid and OK unchanged |
| Gui.CheckboxTableDialog.HandleSelect | src/napari_ilastik/gui.py:119-122 | select-all and deselect-all paint every enabled key |
| Plugin.ScaleListAscending | src/ilastik/napari/plugin.py:54 | the scales are strictly ascending |
| Plugin.MakeFilter | src/ilastik/napari/plugin.py:46-53 | filter_list[kind](scale) builds the kind's filter at that scale, with the default inner_k |
| Plugin.KindIndex | src/ilastik/napari/plugin.py:46-53 | the position of a filter's class in filter_list |
| Plugin.MakeFilterInjective | src/ilastik/napari/plugin.py:46-54 | distinct (class, scale) pairs give distinct filters |
| Plugin.KeysOf | src/ilastik/napari/plugin.py:116-118 | the dict's keys in insertion order |
| Plugin.Without | src/ilastik/napari/plugin.py:120 | the dict without the items of a key, in order |
| Plugin.KeyIn | src/ilastik/napari/plugin.py:120 | a key is present iff one of its items is |
| Plugin.WithoutKeys | src/ilastik/napari/plugin.py:120 | deleting a key removes exactly that key |
| Plugin.KeysOfCons | src/ilastik/napari/plugin.py:120 | the keys of a prepended dict |
| Plugin.OrderedTail | src/ilastik/napari/plugin.py:120 | the rest of an ordered dict stays ordered, above its first key |
| Plugin.OrderedCons | src/ilastik/napari/plugin.py:120 | a first key below the rest keeps the dict ordered |
| Plugin.WithoutOrdered | src/ilastik/napari/plugin.py:120 | deletion keeps the order and removes one item iff the key is present |
| Plugin.DelKey | src/ilastik/napari/plugin.py:120 | del d[k] removes exactly key k and keeps the others in order; KeyError when k is absent |
| Plugin.DefaultFeaturesState | src/ilastik/napari/plugin.py:116-120 | the default state holds exactly the 37 grid keys other than (s, 0) for s in 1..5, all True, in row-major order |
| Plugin.MapOfAllTrue | src/ilastik/napari/plugin.py:116-118 | dict.fromkeys(..., True) maps each of its keys, and only those, to True |
| Plugin.DefaultStateInTable | src/ilastik/napari/plugin.py:121-126 | every default key lies inside the 6 × 7 dialog grid |
| Plugin.DefaultContents | src/ilastik/napari/plugin.py:121-126 | the dialog's mapping after update(state) is the state |
| Plugin.DefaultDialogSelection | src/ilastik/napari/plugin.py:116-126 | the dialog opened on the default state has exactly the default keys checked |
| Plugin.OpenFeaturesDialog | src/ilastik/napari/plugin.py:116-126 | the feature dialog opens with exactly the 37 default keys selected and OK enabled |
| Plugin.PyIndex | src/ilastik/napari/plugin.py:188 | Python indexing: a negative index counts from the end; anything else outside raises IndexError |
| Plugin.FilterFor | src/ilastik/napari/plugin.py:188 | filter_list[row](scale_list[col]) succeeds iff both indices are valid |
| Plugin.FiltersFor | src/ilastik/napari/plugin.py:186-191 | the filter tuple is built iff every key indexes, one filter per key in order |
| Plugin.FirstFailure | src/ilastik/napari/plugin.py:186-191 | a key that cannot be indexed, when one exists |
| Plugin.LexLessTotal | src/ilastik/napari/plugin.py:189 | tuple comparison is total |
| Plugin.MinExists | src/ilastik/napari/plugin.py:189 | a non-empty set of keys has a least key |
| Plugin.LexMin | src/ilastik/napari/plugin.py:189 | the least key of a non-empty set |
| Plugin.SortedKeys | src/ilastik/napari/plugin.py:189 | sorted(selected) lists every selected key once, in strictly increasing tuple order |
| Plugin.BuildFilterSet | src/ilastik/napari/plugin.py:186-191 | the FilterSet has one filter per selected key, in sorted key order; it fails iff some key cannot be indexed |
| Plugin.BankAt | src/ilastik/napari/plugin.py:186-191 | filter i belongs to the i-th sorted key |
| Plugin.BankGrouped | src/ilastik/napari/plugin.py:186-191 | the bank is grouped by class in filter_list order, with scales strictly ascending within a class |
| Plugin.ScaleIndexInjective | src/ilastik/napari/plugin.py:54 | distinct scale positions hold distinct scales |
| Plugin.BankMembers | src/ilastik/napari/plugin.py:186-191 | a grid key is selected iff its filter is in the bank |
| Plugin.ByteLabelValues | src/ilastik/napari/plugin.py:209 | astype(uint8) + 1: an index below 255 becomes itself plus one, and 255 wraps to 0 |
| Plugin.Segmentation | src/ilastik/napari/plugin.py:208-209 | the segmentation drops the class axis; it fails (ValueError from argmax) iff the class axis is empty |
| Plugin.SegmentationScalar | src/ilastik/napari/plugin.py:209 | a 0-d input has argmax 0, so its segmentation is the scalar label 1 |
| Plugin.SegmentationAt | src/ilastik/napari/plugin.py:209 | the label at each pixel is the byte label of its first most probable class |
| Plugin.SegmentationLabels | src/ilastik/napari/plugin.py:209 | with fewer than 256 classes, each label is 1 + the first most probable class, so it lies in 1..classes |
| Plugin.SegmentationWraps | src/ilastik/napari/plugin.py:209 | uint8 arithmetic: class index 255 gets label 0 |
| Plugin.UpdateOutputLayers | src/ilastik/napari/plugin.py:202-206 | a layer changes only when its output is checked, and then holds the segmentation or the probabilities of the same result |
| Plugin.All | src/ilastik/napari/plugin.py:176 | all(...) holds iff every element does |
| Plugin.Any | src/ilastik/napari/plugin.py:177 | any(...) holds iff some element does |
| Plugin.RunEnabled | src/ilastik/napari/plugin.py:172-178 | Run is enabled iff an image and a labels layer are both chosen and at least one output type is checked |
| Plugin.RunReachesOutput | src/ilastik/napari/plugin.py:172-209 | a run of the chosen image and labels that succeeds with at least one class always updates the layers successfully; with Run enabled it writes the run's segmentation or probabilities, and on a viewer without output layers a layer is written iff Run was enabled |
| Plugin.PixelClassification | src/ilastik/napari/plugin.py:29-35 | corrected pipeline: the result has a leading class axis followed by the image shape |
| Plugin.PixelClassificationAsWritten | src/ilastik/napari/plugin.py:29-35 | as written, composed with `src/napari_ilastik/classifier.py` as the imported classifier: a result would have the image's last axis in front of its other axes |
| Plugin.PixelClassificationAt | src/ilastik/napari/plugin.py:29-35 | corrected: entry [j] + p is the trained estimator's probability of class j for pixel p's feature vector |
| Plugin.PixelClassificationAsWrittenFails | src/ilastik/napari/plugin.py:29-35 | if `ilastik.napari.classifier` is the module `src/napari_ilastik/classifier.py`, the run raises on every non-empty image once the estimator yields other than one probability per pixel |

## Left out

- The numerics of fastfilters (Gaussian smoothing, derivatives, eigenvalues) are not
  modelled. The library is a parameter, and only the output shapes it produces are fixed.
  So the subtraction in `DifferenceOfGaussians.transform` is not modelled either.
- scikit-learn and the random forest are not modelled. The estimator is a record of
  functions.
  `fit` trains the estimator in place and returns it. The model instead lets `fit`
  return the trained estimator, which the adapter then holds.
- Classifier.NDSparseClassifier.Fit: states only what the estimator's fit returns,
  because scikit-learn's in-place training is not modelled.
- Floating point is modelled as `real`. NaN, rounding and the ordering of NaN in `argmax`
  are not modelled.
- The sparse array library is modelled only as far as `COO.from_numpy` (coordinates and
  values of the nonzero entries). Its other formats and operations are not modelled.
- A `FilterSet` nested inside a `FilterSet` is not modelled. The bank built by the plugin
  only holds single filters.
- The Qt widgets, signals, header views, layout and sizing are not modelled. Neither are
  napari's viewer, layers, layer-list models and combo boxes.
  - Layer choice is an `Option`.
  - An output layer is an `Option` of its data, so creating a missing layer and updating
    an existing one are the same step.
  - The layer display parameters and colour mode are not modelled.
- `thread_worker`, the progress bar and enabling or disabling the Run button while a run
  is in progress are not modelled, because they are concurrency and display.
- `src/napari_ilastik/plugin.py` (an older variant of the widget) is not part of this
  model.
- `src/ilastik/napari/plugin.py` imports its classifier and dialog from `ilastik.napari`.
  Those modules are not part of this model, and `src/napari_ilastik/classifier.py` and
  `src/napari_ilastik/gui.py` stand in for them.
- The `**kwargs` that `_fit_with`, `fit`, `partial_fit` and `fit_predict` pass on to the
  estimator (`src/napari_ilastik/classifier.py:9-10`, `23-27`, `41-42`) are not modelled:
  the estimator's methods take no extra arguments here, and the plugin passes none.
- The Python dict `features_state` is modelled as its list of items in insertion order.
- `ModelDict.__iter__` is a lazy generator that `_handle_header` and `_handle_select`
  mutate while it runs. The model takes the keys first and then assigns them.
  `Gui.AssignAllKeepsKeys` proves that after every assignment of the loop the iteration
  still yields the keys of the start, and the loops of `HandleHeader` and `HandleSelect`
  carry this as an invariant. The resumption of a Python generator after a mutation is
  not itself modelled.
- A key outside the grid makes `QStandardItemModel.item` return `None`, and the following
  attribute access raises `AttributeError`. The model reports this as one error, `NoItem`.
- The code does not check up front for an empty filter bank, a non-positive scale,
  fewer than two label classes, or image and label shapes that differ. A design with
  dedicated configuration, shape-mismatch and insufficient-labels errors would. These
  cases fail only where numpy, sparse indexing or the estimator raise, and the model
  follows the code.

## Findings

| source | as written | input that shows it | evidently intended | confidence | as-written member | corrected member |
|---|---|---|---|---|---|---|
| src/napari_ilastik/classifier.py:14 | `_predict_with` reshapes the estimator's output to `X.shape[:-1]`, which only fits one value per pixel | `predict_proba` on any non-empty feature map with a classifier of two or more classes: n·k values cannot take the shape of n pixels, so `_pixel_classification` (plugin.py:35) would raise if the classifier it imports were this module | the probabilities are reshaped to `X.shape[:-1] + (k,)`, which gives the `(classes, *image)` array that `moveaxis(..., -1, 0)` and `argmax(axis=0)` expect | high for the reshape; not executed | Classifier.PredictWithRejectsClassVectors | Classifier.PredictPerPixelPointwise |
| src/napari_ilastik/classifier.py:41-42 | `fit_predict` calls `predict` on what `fit` returns, which is the wrapped estimator's own `fit` result (the bare estimator), so the N-D `X` is never flattened | `fit_predict` on a feature map of rank 3 (a 2-D image with channels) when the estimator only accepts matrices | fit through the adapter, then predict through the adapter | medium; not executed | Classifier.FitPredictRejectsImages | Classifier.FitThenPredictPointwise |
| src/ilastik/napari/plugin.py:35 | `_pixel_classification` takes the probabilities from `predict_proba` of `ilastik.napari.classifier`, which is not part of this model; if that module is `src/napari_ilastik/classifier.py`, the reshape of classifier.py:14 stops every run | any non-empty image with two or more label classes, under that assumption | the class axis first, then the image shape, with entry `[j, *p]` the probability of class j at pixel p, which is what the plugin's `moveaxis(..., -1, 0)` and `argmax(axis=0)` expect | low: it holds only if the imported module matches the one modelled, and the plugin's own axis handling suggests the imported one already returns per-pixel class vectors; not executed | Plugin.PixelClassificationAsWrittenFails | Plugin.PixelClassificationAt |
