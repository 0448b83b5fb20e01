# Neural-Nets autodiff core in Dafny

This project models the reverse-mode automatic differentiation engine of the
Neural-Nets repository and proves properties of it. That engine is the TypeScript classes under `src/`:

- `Tensor`, `GradientHandler`, `TensorOperation` and the operations
  `Add`, `Mean`, `Matmul` and `Max`;
- the array helpers of `TensorUtils` and `TensorFactory`;
- the `Layer`/`Linear`/`Sequential` network;
- the `Optimiser`/`SGD` update;
- the `Accuracy` metric;
- the `Trainer` driver;
- the `convertToModelCode` script builder.

It also models the array helpers and the shape-checked `operation` of the two
legacy tensor classes, `utils/Tensor.js` and `lib/Tensor.ts`.

Nested number arrays are the datatype `NArrays.NArr = Leaf(real) | Node(seq<NArr>)`.
Modelling them as values means the `value` getter's deep copy (`structuredClone`, src/Tensor.ts:20-22) is implicit:
no caller can mutate a tensor's array through a reference it was handed.
Objects whose fields the source updates in place are classes with `modifies`
frames:

- `Tensor`, `GradientHandler` and the operation objects;
- the parameter map, `Linear`, `Sequential` and `SGD`;
- `Accuracy` and `Trainer`;
- the two legacy tensor classes.

Loops of the source are methods with loop invariants, each proved against a value-level function. That function's own properties are proved as lemmas:

- `transpose`, `getIndices`, `setElement`, `reshape` and `tensorMul`;
- the verify loop;
- the optimiser's nested `forEach`;
- `train`;
- `doOperation`, `reshapeValue` and `repeatValue`.

Modules, by source file:

- `Results` (results.dfy): `Option`, `Result` and `Outcome`, plus the error kinds: each `throw` of the source and each JavaScript run-time failure.
- `NArrays` (narrays.dfy): shape, rectangularity, row-major flattening, point writes, filled arrays, transposition.
- `TensorUtils` (tensor_utils.dfy): `src/TensorUtils.ts`.
- `Factory` (factory.dfy): `src/TensorFactory.ts` and the tensor builders of `TensorUtils`.
- `Kernels` (kernels.dfy): the forward and backward formulas of `src/TensorOperationsList.ts`.
- `Operations` (operations.dfy): the setup/forward/backward protocol as values, `verify`.
- `Autograd` (autograd.dfy): the `Tensor`, `GradientHandler` and `TensorOperation` classes.
- `Backprop` (backprop.dfy): `GradientHandler.backward`.
- `Layers` (layers.dfy): `Layer`, `Linear`, `Sequential`.
- `Optim` (optim.dfy): `Optimiser`, `SGD`.
- `Metrics` (metric.dfy): `Accuracy`, and the `argmax` it is assumed to use.
- `Training` (training.dfy): `Trainer`.
- `ModelCode` (model_code.dfy): `convertToModelCode`.
- `LegacyArrays` (legacy_arrays.dfy): the recursive array helpers shared by `utils/Tensor.js` and `lib/Tensor.ts`.
- `LegacyTensor` (legacy_tensor.dfy): the two legacy tensor classes.

Two defects of the source are modelled as written and pinned by lemmas:

- **Matmul's second gradient.** `Matmul.backward` returns `tensorMul(t1, G)` as the gradient of `t2` (src/TensorOperationsList.ts:100).
  - For `t1` of shape `[m, n]` that product has shape `[m, p]`, not `t2`'s `[n, p]`.
  - It does not exist at all when `n > m`.
  - So `verify` passes only for a square `t1`. Otherwise it reports index 1 or crashes (`Kernels.MatmulSecondGradientAsWritten`, `Operations.MatmulVerifyAsWritten`).
  - The model keeps the formula as written, because `Linear.forward` and everything built on it run this code.
- **Misaligned constructor arguments in lib/Tensor.ts.** `operation` passes `(value, require_grad, [this, tensor2], …)` positionally to a constructor whose second parameter is `shape` (lib/Tensor.ts:153-158, lib/Tensor.ts:10-18).
  - A result tensor's `shape` is therefore a boolean, and its `require_grad` is the list of operands.
  - Two such results pass the textual shape check whatever their real shapes are (`LegacyTensor.MisalignedGuard`).
  - An operation on a second-generation result yields an empty array (`LegacyTensor.SecondGenerationEmpties`).

## Model

| member | source | states |
|---|---|---|
| NArrays.Filled | src/TensorUtils.ts:51-66 | the filled array has exactly the requested shape and every leaf is the fill value |
| NArrays.FilledUnique | src/TensorFactory.ts:4-19 | an array of a given shape whose every leaf is v is the filled array of that shape and v |
| NArrays.FilledFlatten | src/TensorUtils.ts:51-66 | a filled array flattens to Product(shape) copies of the fill value |
| NArrays.ShapeOfHasShape | src/Tensor.ts:41-47 | for a rectangular array with positive dimensions, the shape read along first elements is its true shape |
| NArrays.HasShapeRect | src/Tensor.ts:41-47 | an array of positive shape s is rectangular and its computed shape is s |
| NArrays.FlatShape | src/TensorUtils.ts:84-90 | a flat array of n numbers has shape [n] |
| NArrays.FlattenLength | src/TensorUtils.ts:26-28 | an array of shape s flattens to Product(s) numbers |
| NArrays.FlattenAt | src/TensorUtils.ts:26-28 | flattening is row-major: the entry at offset RowMajor(p, s) is the leaf at index path p |
| NArrays.RowMajorBound | src/TensorUtils.ts:31-38 | every in-range index has a row-major offset below the element count |
| NArrays.RowMajorInjective | src/TensorUtils.ts:31-38 | distinct in-range indices have distinct row-major offsets |
| NArrays.InRangeWritable | src/TensorUtils.ts:41-46 | an in-range index can be walked and written in an array of that shape |
| NArrays.SetAtHasShape | src/TensorUtils.ts:41-46 | writing a leaf keeps the array's shape |
| NArrays.FlattenSetAt | src/TensorUtils.ts:41-46 | a point write is the one-entry update of the flattening at the index's row-major offset |
| NArrays.SetAtOnlyThere | src/TensorUtils.ts:41-46 | after a point write the written leaf reads back and every other index reads as before |
| NArrays.ZipWithFlatten | src/TensorOperationsList.ts:7-9 | a leafwise combination keeps the structure, and its entry k combines the operands' entries k |
| NArrays.MapLeavesFlatten | src/TensorOperationsList.ts:128-133 | a leafwise map keeps the structure, and its entry k is the image of the input's entry k |
| NArrays.Transposed | src/TensorUtils.ts:15-23 | the transpose of an r×c matrix is c×r with entry (j, i) equal to entry (i, j) |
| NArrays.TransposeTwice | src/TensorUtils.ts:15-23 | transposing a non-empty matrix twice gives back the original |
| TensorUtils.FilledArray | src/TensorUtils.ts:51-66 | the slot-by-slot loop builds the filled array of the shape and fill value |
| TensorUtils.Transpose | src/TensorUtils.ts:15-23 | the double loop over a zero buffer gives the transpose, entry (j, i) = entry (i, j); it fails on an array without rows |
| TensorUtils.GetIndices | src/TensorUtils.ts:31-38 | the digit loop gives an in-range index whose row-major offset is index mod the element count; the last axis varies fastest |
| TensorUtils.GetIndicesRoundTrip | src/TensorUtils.ts:31-38 | below the element count, recomposing the decomposed index gives back the flat index |
| TensorUtils.SetElement | src/TensorUtils.ts:41-46 | walking to the parent and assigning the slot is the point write SetAt |
| TensorUtils.WalkDown | src/TensorUtils.ts:42-44 | the walk lists one array per index, starting at the array, each the indexed entry of the one before |
| TensorUtils.OverlayShort | src/TensorUtils.ts:4-12 | with at most P entries, the flat input comes first and zeros fill the rest |
| TensorUtils.OverlayExact | src/TensorUtils.ts:4-12 | with exactly P entries, all of them are kept in order |
| TensorUtils.Reshape | src/TensorUtils.ts:4-12 | a number input crashes in `flatten`; for a shape of positive dimensions the result has that shape, and its flattening is the zero buffer overwritten by the input entries at their getIndices positions; an empty shape gives 0 for an empty input and a crash otherwise; a zero dimension gives the zero-filled array when the input is empty or the shape has one axis, and a crash otherwise |
| TensorUtils.ReshapeRoundTrip | src/TensorUtils.ts:4-12 | when the input has Product(shape) leaves, flatten(reshape(a, s)) == flatten(a) |
| TensorUtils.ReshapeShort | src/TensorUtils.ts:4-12 | with fewer leaves than slots, the input comes first and the slots past it keep the fill 0 |
| TensorUtils.CalculateShape | src/TensorUtils.ts:84-90 | the accumulator gains the length of each level of first elements |
| Factory.FilledTensor | src/TensorFactory.ts:32-34 | `filled` makes a fresh tensor with an untouched handler holding the filled array |
| Factory.Ones | src/TensorFactory.ts:22-24 | `ones` is `filled` with 1 |
| Factory.Zeros | src/TensorFactory.ts:27-29 | `zeros` is `filled` with 0 |
| Factory.FilledShape | src/TensorFactory.ts:4-19 | with positive dimensions the filled array has the shape, flattens to Product(shape) copies of v, and is the only uniform array of that shape |
| Factory.FilledSlotsIndependent | src/TensorFactory.ts:14-16 | slots are separate arrays: writing one leaf leaves every other position holding the fill value |
| Factory.FilledGet | src/TensorFactory.ts:11-18 | every in-range index of a filled array reads the fill value |
| Autograd.Tensor.constructor | src/Tensor.ts:13-17 | a new tensor stores its value without a shape check and gets a fresh, untouched handler bound to it |
| Autograd.Tensor.GetShape | src/Tensor.ts:31-33 | the shape is recomputed from the stored value on every read |
| Autograd.Tensor.SetValue | src/Tensor.ts:25-28 | a value of the same shape replaces the old one; a different shape fails and leaves the value unchanged |
| Autograd.Tensor.Clone | src/Tensor.ts:36-38 | a clone is a new tensor with an equal value and its own fresh, untouched handler |
| Autograd.GradientHandler.constructor | src/GradientHandler.ts:13-14 | a new handler is bound to its tensor, with no children, producer or gradient |
| Autograd.GradientHandler.GetGradient | src/GradientHandler.ts:22-28 | reading the gradient fails exactly when none is set, and otherwise returns it |
| Autograd.GradientHandler.SetGradient | src/GradientHandler.ts:31-33 | the setter stores the given tensor's value as the gradient |
| Autograd.GradientHandler.RegisterChildren | src/GradientHandler.ts:36-38 | the given tensors are appended, in order, after the existing children |
| Autograd.GradientHandler.RegisterOperation | src/GradientHandler.ts:41-43 | the producer is replaced |
| Autograd.GradientHandler.ApplyGradient | src/GradientHandler.ts:72-74 | the value becomes value − gradient; it fails without a gradient or on a shape mismatch, and then the value is unchanged |
| Autograd.Operation.constructor | src/TensorOperation.ts:5-11 | a new operation of its kind holds no cached state |
| Autograd.Operation.Setup | src/TensorOperationsList.ts:30-164 | `setup` performs exactly the checks and stores exactly the fields SetupStep gives for its kind |
| Autograd.Operation.Forward | src/TensorOperationsList.ts:17-147 | `forward` returns the output and caches the operands exactly as ForwardStep gives for its kind |
| Autograd.Operation.Backward | src/TensorOperationsList.ts:24-153 | `backward` returns BackwardOf on the cached fields |
| Autograd.Operation.GetGradient | src/TensorOperation.ts:45-48 | `getGradient` wraps each array of backward, in order, in a fresh tensor, and fails exactly when backward does |
| Autograd.Operation.Call | src/TensorOperation.ts:37-43 | setup runs before forward on the input values; the output is a fresh tensor whose children are the inputs, in order, whose producer is this operation, and whose gradient is unset |
| Autograd.Operation.Verify | src/TensorOperation.ts:14-27 | the outcome is VerifyOutcome: call, then backward seeded with the output, then the count check, then the first shape mismatch |
| Autograd.Operation.CheckGradients | src/TensorOperation.ts:16-26 | after the call, the outcome is GradientOutcome: backward's error, else a gradient count other than the input count, else the first index whose shapes differ |
| Autograd.CompareShapes | src/TensorOperation.ts:20-24 | the loop names the first index whose gradient shape differs from its input's, and passes when there is none |
| Autograd.MismatchAt | src/TensorOperation.ts:20-24 | a mismatch after an equal prefix is the one reported |
| Autograd.Wrap | src/TensorOperation.ts:47 | each array is wrapped in a fresh tensor, in order |
| Autograd.TransposeValue | src/TensorUtils.ts:15-23 | the hidden Transpose operation computes TensorUtils.transpose |
| Autograd.ValuesOf | src/TensorOperation.ts:39 | `tensors.map(t => t.value)` lists the tensors' values in order |
| Operations.SetupStep | src/TensorOperationsList.ts:106-117 | Matmul and Max store nothing in setup, and both fail with an arity error unless there are exactly two inputs |
| Operations.BackwardOf | src/TensorOperationsList.ts:24-27 | Add returns tensorCount copies of the gradient (one before any setup); Matmul and Max return two arrays; Mean returns one |
| Operations.FirstMismatch | src/TensorOperation.ts:20-24 | the result is the first index from `from` at which the shapes differ, or none when all agree |
| Operations.CallOutputFresh | src/TensorOperation.ts:37-43 | the output of `_call` does not depend on what an earlier call cached |
| Operations.ApplyTranspose | src/Linear.ts:23 | the Transpose operation on one input is TensorUtils.transpose |
| Operations.ApplyMatmul | src/TensorOperationsList.ts:89-117 | Matmul on two inputs fails on disagreeing inner dimensions and is otherwise tensorMul |
| Operations.ApplyAdd | src/TensorOperationsList.ts:17-21 | Add on two inputs is `sum` |
| Operations.ApplyMax | src/TensorOperationsList.ts:143-164 | Max fails unless the limit has shape [1] and is otherwise the clamp |
| Operations.AddVerifies | src/TensorOperation.ts:14-27 | Add passes `verify` on any non-empty list of inputs of one array shape, and on a single input of any shape |
| Operations.AddShape | src/TensorOperationsList.ts:12-21 | on such inputs Add's forward succeeds with the inputs' shape |
| Operations.AddNumbersFail | src/TensorOperationsList.ts:7-14 | Add on two or more number-valued tensors fails `verify` with a crash |
| Operations.MeanOfNumber | src/TensorOperationsList.ts:44-61 | Mean on a number: setup passes and leaves elementCount undefined, and forward then crashes, so `verify` fails |
| Operations.MeanVerifies | src/TensorOperation.ts:14-27 | Mean passes `verify` on a rank-1 or rank-2 input with positive dimensions |
| Operations.MaxVerifies | src/TensorOperation.ts:14-27 | Max passes `verify` on a structural input and a one-element limit |
| Operations.VerifyFromParts | src/TensorOperation.ts:15-24 | after a successful call and backward, `verify` is decided by the first gradient shape mismatch |
| Operations.VerifyBackwardFails | src/TensorOperation.ts:15-16 | a failing backward makes `verify` fail with the same error |
| Operations.MatmulVerifiesSquare | src/TensorOperationsList.ts:99-103 | Matmul passes `verify` when t1 is square and conforms to t2 |
| Operations.MatmulSquareGrads | src/TensorOperationsList.ts:99-103 | with a square t1 both gradients have their operand's shape |
| Operations.MatmulForwardOf | src/TensorOperationsList.ts:89-117 | on conforming matrices setup passes, forward caches both operands, and the output has shape [m, p] |
| Operations.MatmulVerifyAsWritten | src/TensorOperationsList.ts:99-103 | with t1 of shape [m, n], m ≠ n, `verify` crashes when n > m and names index 1 when n < m |
| Operations.MatmulMismatch | src/TensorOperation.ts:20-24 | gradients of shapes [m, n] and [m, p] with n < m make `verify` name index 1 |
| Operations.MatmulMismatchShapes | src/TensorOperation.ts:20-24 | such gradients first differ from the operands' shapes at index 1 |
| Operations.ArityChecked | src/TensorOperationsList.ts:107-109 | Matmul and Max refuse any input count other than two |
| Kernels.AddArrays | src/TensorOperationsList.ts:7-9 | `addArrays` follows the structure of its first operand |
| Kernels.ThrowsCongruent | src/TensorOperationsList.ts:7-9 | whether `addArrays(a, b)` throws depends only on the structure of a, so every partial sum of `reduce` throws exactly where its first array would |
| Kernels.CoversNoThrow | src/TensorOperationsList.ts:7-9 | `addArrays` never throws on a first operand that the second covers index by index |
| Kernels.AddArraysIsZip | src/TensorOperationsList.ts:7-9 | on congruent arrays `addArrays` is the leafwise sum |
| Kernels.SumArrays | src/TensorOperationsList.ts:12-14 | `sum` fails on no arrays; a result has the first array's structure, and with two or more arrays the first is an array, not a number |
| Kernels.SumArraysCrash | src/TensorOperationsList.ts:7-14 | with two or more arrays, `sum` crashes exactly when some `addArrays(arrays[0], arrays[j])`, j ≥ 1, throws, and always when arrays[0] is a number |
| Kernels.NumbersCrash | src/TensorOperationsList.ts:7-14 | `sum` of the numbers 1 and 2 crashes: `.map` is called on a number |
| Kernels.BatchPlusRowCrash | src/TensorOperationsList.ts:7-14 | `sum` of [[1],[2]] and [[5]] crashes: the second row reads `undefined[0]` |
| Kernels.SumArraysOfShape | src/TensorOperationsList.ts:12-21 | on inputs of one array shape (or a single input of any shape), Add's forward has that shape and entry k is the sum of the inputs' entries k |
| Kernels.AddBackward | src/TensorOperationsList.ts:24-27 | Add's backward is tensorCount copies of the incoming gradient |
| Kernels.MeanElementCount | src/TensorOperationsList.ts:58-61 | elementCount is defined exactly for an array's shape and is then the product of the shape; a number's shape leaves it undefined without a throw |
| Kernels.MeanForward | src/TensorOperationsList.ts:44-49 | Mean's forward result is a one-element array, and a number-valued input crashes |
| Kernels.FlatOneOfRankTwo | src/TensorOperationsList.ts:46 | one level of `flat()` lists all leaves of a rank-1 or rank-2 array in row-major order |
| Kernels.MeanOfRankTwo | src/TensorOperationsList.ts:44-61 | for rank 1 or 2 with positive dimensions, Mean is [sum of all leaves / product of the shape] |
| Kernels.MeanBackward | src/TensorOperationsList.ts:52-55 | Mean's backward is one array of the cached input shape whose every entry is gradient[0] |
| Kernels.MatProduct | src/TensorOperationsList.ts:71-86 | the product has shape [rows(a), cols(b)] and entry (r, c) = Σᵢ a[r][i]·b[i][c] |
| Kernels.TensorMul | src/TensorOperationsList.ts:71-86 | the triple loop over a zero buffer computes TensorMulResult |
| Kernels.TensorMulConforming | src/TensorOperationsList.ts:71-86 | on conforming matrices tensorMul succeeds with shape [rows(a), cols(b)] |
| Kernels.TransposeResult | src/TensorUtils.ts:15-23 | on a matrix, transpose succeeds exactly when there is a row, and is then the transpose |
| Kernels.MatmulBackward | src/TensorOperationsList.ts:99-103 | Matmul's backward yields two arrays |
| Kernels.MatmulFirstGradientShape | src/TensorOperationsList.ts:100 | G·t2ᵀ exists and has t1's shape [m, n] |
| Kernels.MatmulSecondGradientAsWritten | src/TensorOperationsList.ts:100 | t1·G crashes when n > m; otherwise it has shape [m, p], not t2's shape [n, p] |
| Kernels.MatmulSecondGradientExamples | src/TensorOperationsList.ts:100 | [2,3]·[3,2] crashes in backward, and [3,2]·[2,1] gives t2 a gradient of shape [3, 1] instead of [2, 1] |
| Kernels.MatmulBackwardSquare | src/TensorOperationsList.ts:99-103 | for a square t1 both gradients have their operand's shape |
| Kernels.MaxOfStructural | src/TensorOperationsList.ts:128-133 | on structural arrays `max` is the leafwise clamp from below |
| Kernels.MaxForwardFlatten | src/TensorOperationsList.ts:128-133 | the forward keeps the structure, and entry k is x if x > limit, else limit |
| Kernels.CalcGradStructural | src/TensorOperationsList.ts:135-140 | on structural arrays `calcGrad` is the leafwise mask |
| Kernels.MaxBackwardFlatten | src/TensorOperationsList.ts:135-140 | entry k of the gradient is g's entry where x > limit strictly, else 0 |
| Kernels.MaxForward | src/TensorOperationsList.ts:143-147 | Max's forward succeeds exactly when the limit operand starts with a number |
| Kernels.MaxBackward | src/TensorOperationsList.ts:149-153 | Max's backward yields two arrays, the second [0] |
| Kernels.ReluExample | src/TensorOperationsList.ts:143-153 | [[-1,2,-3]] with limit 0 gives [[0,2,0]], and with gradient [[1,1,1]] gives [[0,1,0]] and [0] |
| Kernels.ReluSingletonExample | src/TensorOperationsList.ts:128-133 | a one-element row looks like a number to isNaN: the ReLU of [[-1]] is the bare 0 |
| Kernels.Diff | src/GradientHandler.ts:73 | the assumed elementwise difference exists exactly for equal shapes, and entry k is a_k − b_k |
| Kernels.Product2 | src/SGD.ts:14 | the assumed elementwise product exists exactly for equal shapes, and entry k is a_k · b_k |
| Backprop.Backward | src/GradientHandler.ts:46-69 | the recursive backward writes exactly the gradients of Descend, in its order, and ends as Descend does |
| Backprop.BackwardChildren | src/GradientHandler.ts:59-65 | the children loop writes what the children's backward passes write, in index order |
| Backprop.DescendChildrenStops | src/GradientHandler.ts:62-64 | once a child's backward fails, no later child is visited |
| Backprop.DescendWritesBelow | src/GradientHandler.ts:46-69 | backward writes gradients only of tensors reachable from t |
| Backprop.DescendSetsOwnGradient | src/GradientHandler.ts:68 | a completed backward leaves t's gradient equal to its seed: the argument, or t's own value |
| Backprop.SeedRules | src/GradientHandler.ts:49-56 | without an argument, a shape other than [1] fails before anything is written; a leaf only records its seed |
| Backprop.DiamondOverwrites | src/GradientHandler.ts:62-68 | a tensor reached along two paths keeps the last gradient, not the sum |
| Layers.MapSetSpec | src/Layer.ts:19-21 | after `set(name, t)` the name maps to t, other names are unchanged, keys stay distinct, and the size grows exactly when the name was new |
| Layers.ParamMap.constructor | src/Layer.ts:9 | a new map is empty |
| Layers.ParamMap.Set | src/Layer.ts:20 | `set` binds the name and leaves every other entry as it was |
| Layers.Layer.constructor | src/Layer.ts:5-9 | a new layer has a fresh, empty map of its own |
| Layers.Layer.GetParameters | src/Layer.ts:11-13 | the getter returns the live map object |
| Layers.Layer.SetParameters | src/Layer.ts:15-17 | the setter replaces the whole map |
| Layers.Layer.RegisterParameter | src/Layer.ts:19-21 | `registerParameter` is `set` on the current map |
| Layers.Linear.constructor | src/Linear.ts:10-21 | weights are zeros of shape [out, in], biases are zeros of shape [1, out], and the map holds exactly 'weights' then 'biases', bound to those tensors |
| Layers.Linear.Forward | src/Linear.ts:22-30 | the output is LinearValue: input · weightsᵀ + biases, clamped at 0 exactly when the activation is 'relu'; the reused Transpose, Matmul and Add objects hold the operands of the calls made and only of those; the output is the Add's (AffineGraph), or with 'relu' a fresh Max's on that output and [0] |
| Layers.Linear.Product | src/Linear.ts:23 | the Transpose then the Matmul compute input · weightsᵀ; each object records the call it made, the Matmul only when the Transpose succeeded; the output's producer is the Matmul on [input, the Transpose's output on [weights]] |
| Layers.Linear.Affine | src/Linear.ts:23-24 | the reused Transpose, Matmul and Add objects compute input · weightsᵀ + biases and record the operands of the calls made, a call not made leaving its object as it was; the output's producer is the Add on [the product, biases] |
| Layers.Relu0 | src/Linear.ts:26 | a new Max with limit [0] clamps from below at 0; the output's producer is that fresh Max, on [x, a fresh tensor holding [0]] |
| Layers.LinearShape | src/Linear.ts:22-30 | an input of shape [1, n] gives an output of shape [1, out] |
| Layers.LinearSum | src/Linear.ts:22-27 | the activation is applied to the affine part exactly when relu is set |
| Layers.AffineParts | src/Linear.ts:23-24 | Transpose and Matmul succeed on conforming shapes, leaving a [1, out] row for the Add |
| Layers.ReluRow | src/Linear.ts:25-27 | on a [1, o] row with o ≥ 2, Max with limit l clamps each entry and keeps the shape |
| Layers.LinearZero | src/Linear.ts:12-27 | a freshly built layer outputs zeros of shape [1, out] for every input |
| Layers.ForwardLayer | src/Sequential.ts:17-21 | one iteration applies layer i to the previous result and Reached moves on to i + 1; layer i's operations then hold the operands of this pass (Recorded), every layer sharing no operation with it keeps its operations' states, and the loop's Progress moves on by one layer |
| Layers.ReachedStep | src/Sequential.ts:18-19 | layer i applied to the fold of the layers before it gives the fold of i + 1 layers, or on an error the fold of all layers |
| Layers.ReachedDone | src/Sequential.ts:17-23 | when the loop ends, after every layer or on an error, its result is the fold of all the layers |
| Layers.RunLayers | src/Sequential.ts:17-21 | the loop's result is the fold of the layers from the input; with no operation object shared between layers, the operations' new states are Ran from their old states |
| Layers.ProgressDone | src/Sequential.ts:17-24 | when the loop stops, each layer whose input fold succeeded ran on it (RecordedVals), and every other layer's operations keep their states |
| Layers.FoldStep | src/Sequential.ts:19 | the fold over i + 1 layers is layer i applied to the fold over i layers |
| Layers.FoldStops | src/Sequential.ts:17-21 | a failing layer ends the fold with its error |
| Layers.FoldShape | src/Sequential.ts:15-24 | a chain of conforming layers maps [1, d₀] to [1, d_last] |
| Layers.Sequential.constructor | src/Sequential.ts:5 | a new network has no layers |
| Layers.Sequential.Add | src/Sequential.ts:11-13 | `add` appends the layer after the existing ones |
| Layers.Sequential.Forward | src/Sequential.ts:15-24 | the result is the left fold of the layers from params[0]; with no layers the result is never assigned (NoOutput); with no shared operation objects, each layer reached holds the operands of its pass and each layer not reached keeps its operations' states (Ran) |
| Layers.Sequential.GetParameters | src/Sequential.ts:26-28 | one map per layer, in layer order, and each is the layer's own map object |
| Optim.ProcessedScales | src/SGD.ts:12-17 | the processed gradient exists exactly for a rectangular gradient, has its shape, and is the gradient times the lr option |
| Optim.ScaledByFilled | src/SGD.ts:14 | multiplying by an array of the gradient's shape filled with v scales each entry by v |
| Optim.StepSlotSpec | src/Optimiser.ts:17-21 | one visit completes exactly when the gradient exists, is rectangular and has the value's shape; the value then becomes value − lr·gradient entry by entry and the handler keeps the processed gradient |
| Optim.RunSpec | src/Optimiser.ts:15-23 | applying the visits in order updates every parameter up to the first failure and leaves the rest |
| Optim.StepAllSpec | src/Optimiser.ts:15-25 | a step updates the parameters up to the first that fails, and completes exactly when no visit fails |
| Optim.RunAtUnlisted | src/Optimiser.ts:16-23 | a tensor the rest of the layout does not list keeps its value and gradient |
| Optim.StepAtInOrder | src/Optimiser.ts:15-25 | when each tensor is listed once, in order, the step is StepAll, whose outcome StepAllSpec states |
| Optim.ListedTwice | src/Optimiser.ts:16-21 | a tensor listed twice whose first visit completes is visited again with the gradient already scaled by lr, so its value moves by lr·g + lr·(g·lr) |
| Optim.Dedup | src/Optimiser.ts:16-23 | every layout, repeated tensors included, is a list of distinct tensors read through an index, as BaseStep requires |
| Optim.DecayedBounds | src/SGD.ts:21 | the decayed rate is a number exactly when lr and minLr are (without an lr option minLr is NaN); it is at least minLr, and with 0 ≤ decay and 0 ≤ minLr ≤ lr it is at most lr |
| Optim.DecayedClosedForm | src/SGD.ts:19-22 | after n steps the rate is max(minLr, lr·(1 − decay)ⁿ) |
| Optim.GeometricStep | src/SGD.ts:21 | the floored geometric sequence obeys the update rule of `step` |
| Optim.SGD.constructor | src/SGD.ts:6-11 | lr defaults to 1e-4, decay defaults to 1e-2, minLr is lr option × 1e-2 (NaN without one, and a minLr option is not read), and stepNum starts at 0 |
| Optim.SGD.GetParameters | src/Optimiser.ts:9-11 | the getter returns the list given at construction |
| Optim.SGD.ProcessGradient | src/SGD.ts:12-17 | a fresh tensor holding the gradient scaled by the lr option |
| Optim.SGD.StepTensor | src/Optimiser.ts:18-20 | one parameter's update is StepSlot on its value and gradient |
| Optim.SGD.StepMaps | src/Optimiser.ts:16-23 | the nested loop over maps and entries performs StepAt on the slots, following the layout, so a tensor listed twice is visited twice |
| Optim.SGD.BaseStep | src/Optimiser.ts:15-25 | `step` updates the parameters as StepAt does over the layout of the maps, repeated tensors included, and stepNum grows by one exactly when it completes |
| Optim.SGD.Step | src/SGD.ts:19-22 | the base step over any layout, then lr := max(minLr, lr − lr·decay) when it completed |
| Optim.SGD.ZeroEntries | src/Optimiser.ts:29-31 | every tensor of one map gets a fresh, untouched handler |
| Optim.SGD.ZeroGrad | src/Optimiser.ts:27-34 | every parameter gets a fresh, untouched handler, and values are untouched |
| Metrics.MaxOf | src/displayJs/demo.ts:6 | `Math.max` of a non-empty list is an entry no smaller than any other |
| Metrics.FindIndex | src/displayJs/demo.ts:6 | `findIndex` is the first position holding x, and −1 exactly when x is absent |
| Metrics.ArgMaxSpec | src/displayJs/demo.ts:5-7 | argmax is −1 exactly on the empty list; otherwise it is the first index of a maximum |
| Metrics.Accuracy.Default | src/Metric.ts:8-10 | the default window is 100 loops and the count starts at 0 |
| Metrics.Accuracy.constructor | src/Metric.ts:8-10 | a window of the given length, with the count at 0 |
| Metrics.Accuracy.Reset | src/Metric.ts:21-25 | the count is cleared exactly when loop % afterIterations == 0, and is otherwise unchanged |
| Metrics.Accuracy.Forward | src/Metric.ts:12-19 | returns the count from before the call over 100, then resets, then counts one more exactly when the argmaxes agree |
| Metrics.NoBoundary | src/Metric.ts:14-17 | inside a window the count grows by one per hit |
| Metrics.InsideWindow | src/Metric.ts:22 | no loop strictly inside a window of positive length starts a new one |
| Metrics.WindowCounts | src/Metric.ts:12-25 | from a window boundary, the count holds exactly the hits of that window, whatever came before |
| Metrics.BoundaryClears | src/Metric.ts:14-17 | at a boundary the count ends at 0 or 1 |
| Metrics.ZeroPeriodNeverClears | src/Metric.ts:22 | a zero period never clears the count |
| Training.LoopOrder | src/Trainer.ts:6-25 | the calls made are a prefix of forward, loss, mean, backward, step and zero_grad in that order; a call that throws is the last one made; step is made only when forward, loss, mean and backward all returned; onLoopDone is reported exactly when the loop completes, and last |
| Training.ThrownTrace | src/Trainer.ts:6-17 | a throw at one stage ends the loop with that error, after the calls up to and including the throwing one |
| Training.OneHotSpec | src/Trainer.ts:36-41 | an encoded label is one row of ten, and a key that is not an array index gives ten zeros |
| Training.OneHotClass | src/Trainer.ts:37-40 | a class c below 10 becomes [v] with 0.8 at c and 0 elsewhere |
| Training.PlanSpec | src/Trainer.ts:31-51 | every sample is scheduled once, in index order, with its input and label, and training is reported done last; labels pass unchanged without one-hot encoding |
| Training.Trainer.constructor | src/Trainer.ts:2 | the trainer holds its metric and has made no calls |
| Training.Trainer.Loop | src/Trainer.ts:6-25 | the calls made are LoopTrace, the outcome is LoopOutcome (the first stage's throw, else Infinity Seen, else the metric's result), and the metric counter moves exactly when no stage threw and the loss was finite |
| Training.Trainer.Perform | src/Trainer.ts:7-17 | one stage's call is recorded, and it fails with the given error exactly when that stage is the one that throws |
| Training.Trainer.CalculateMetric | src/Trainer.ts:27-29 | fails exactly on a null metric, and otherwise is the metric's forward |
| Training.Trainer.Train | src/Trainer.ts:31-51 | the loop schedules exactly what Plan lists |
| ModelCode.SplitJoin | src/extras.ts:27 | lines without breaks, joined with '\n', split back into the same lines |
| ModelCode.LineCount | src/extras.ts:27 | fields without breaks give exactly layers + 5 lines, which read back as the generated lines |
| ModelCode.OptimizerDefaults | src/extras.ts:13 | a falsy learningRate, decay or minLr prints as 0.01, 0.2 or 0.0001, each on its own |
| ModelCode.MetricArgument | src/extras.ts:21 | the metric gets the argument 100 exactly for 'Accuracy', and none otherwise |
| ModelCode.LayerLines | src/extras.ts:5-10 | the forEach produces the model line and then one line per layer |
| ModelCode.ConvertToModelCode | src/extras.ts:1-28 | the code is the generated lines joined with '\n' |
| LegacyArrays.CalculateShape | utils/Tensor.js:41-47 | the accumulator gains the legacy shape, and a crash is reported exactly where the recursion reads past an array |
| LegacyArrays.ShapeOfDefined | utils/Tensor.js:41-47 | a non-empty array always has a legacy shape, and its first dimension is the length |
| LegacyArrays.ShapeOfStructural | lib/Tensor.ts:35-41 | when every array has at least two entries, the legacy shape is the structural shape |
| LegacyArrays.FlatShapeOf | utils/Tensor.js:41-47 | a flat array of n > 0 numbers has legacy shape [n] |
| LegacyArrays.SingletonRowCollapses | utils/Tensor.js:43 | [[x]] has legacy shape [1], where its structural shape is [1, 1] |
| LegacyArrays.DoOperation | utils/Tensor.js:153-176 | the push loops compute DoOp |
| LegacyArrays.DoOpPaired | utils/Tensor.js:153-176 | against an operand of the same shape the result is the leafwise combination; division fails exactly on a zero divisor |
| LegacyArrays.DoOpConstant | lib/Tensor.ts:117-139 | against a number the result is the leafwise map; division by 0 fails exactly when there is an entry |
| LegacyArrays.DoOpNoMismatch | lib/Tensor.ts:117-139 | `doOperation` itself never reports a shape mismatch |
| LegacyArrays.HasZeroFlatten | utils/Tensor.js:318-323 | some divisor leaf is 0 exactly when 0 is among the flattened entries |
| LegacyArrays.ReshapeValue | utils/Tensor.js:371-385 | the loop computes ReshapeOf, and a one-axis shape keeps the value |
| LegacyArrays.ReshapeFlat | lib/Tensor.ts:271-285 | a flat input of Product(s) numbers is reshaped to shape s and flattens back to the input |
| LegacyArrays.RepeatValue | utils/Tensor.js:411-424 | the loop computes RepeatOf |
| LegacyArrays.RepeatShape | lib/Tensor.ts:298-311 | repeating a value of shape t by reps gives shape reps + t |
| LegacyArrays.RepeatFlatten | utils/Tensor.js:411-424 | the leaves are Product(reps) copies of the value's leaves, in order |
| LegacyArrays.RepeatShapeOf | utils/Tensor.js:398-399 | the legacy shape recomputed after a repeat of a structural value is reps + its shape |
| LegacyArrays.ReduceSum | lib/Tensor.ts:335 | `reduce` without an initial value succeeds only on a non-empty list, and its result is one of the entries or a number |
| LegacyArrays.SumAllShaped | utils/Tensor.js:489 | flattening by the rank and reducing gives [sum of all leaves], and crashes on no leaves |
| LegacyArrays.StaticSumFlat | utils/Tensor.js:478-481 | on a flat array of numbers the static `sumAll` is their sum |
| LegacyTensor.DefaultShape | utils/Tensor.js:17 | a non-empty array gets its legacy shape, and a number or an empty array gets [0] |
| LegacyTensor.DefaultShapeStructural | utils/Tensor.js:17 | on structural arrays the default shape is the structural shape |
| LegacyTensor.ReshapeTensorFlat | utils/Tensor.js:352-363 | a flat value of Product(s) entries reshapes to shape s with the same entries in row-major order |
| LegacyTensor.JsShapeGuard | utils/Tensor.js:194-197 | "Shapes do not match" is raised exactly when the shapes differ |
| LegacyTensor.JsOperationPaired | utils/Tensor.js:194-208 | against a tensor of the same shape the result is the leafwise combination, of the same shape; division fails exactly on a zero divisor |
| LegacyTensor.JsOperationConstant | utils/Tensor.js:212-223 | against a number the result is the leafwise map, of the same shape |
| LegacyTensor.DivideZeroCheck | utils/Tensor.js:311-324 | division fails exactly when a divisor entry is 0, and otherwise divides entry by entry |
| LegacyTensor.JsTensor.Init | utils/Tensor.js:14-23 | the fields as the constructor sets them |
| LegacyTensor.JsTensor.New | utils/Tensor.js:14-23 | a falsy value fails with "value not defined"; otherwise a fresh tensor gets the value and its default shape |
| LegacyTensor.JsTensor.RegisterChildren | utils/Tensor.js:29-33 | `for…in` appends the index keys 0, 1, … and never the tensors |
| LegacyTensor.JsTensor.Operation | utils/Tensor.js:188-225 | a failure leaves the value unchanged; returnSelf replaces the value, otherwise a fresh tensor gets the result and the children [this, tensor2] or [this] |
| LegacyTensor.JsTensor.Reshape | utils/Tensor.js:352-363 | the value is reshaped and the shape set to the new shape; a failure changes nothing |
| LegacyTensor.JsTensor.Repeat | utils/Tensor.js:392-402 | the value is repeated, then the shape is recomputed, which can fail after the value was replaced |
| LegacyTensor.JsTensor.SumAll | utils/Tensor.js:486-492 | the value becomes [total] and the shape [1]; a failure changes nothing |
| LegacyTensor.JsTensor.StaticSumAll | utils/Tensor.js:478-481 | a fresh tensor holding [reduce of the top-level entries], with require_grad true and the operand as its child |
| LegacyTensor.SumAllTensor | utils/Tensor.js:486-492 | for a value of shape s, sumAll gives [sum of all leaves], and crashes on none |
| LegacyTensor.TsTensor.Init | lib/Tensor.ts:10-27 | the fields as the constructor sets them |
| LegacyTensor.TsTensor.New | lib/Tensor.ts:10-27 | the default shape is computed before the falsy-value check, so a missing value without a shape crashes; any other falsy value fails with "value not defined"; a truthy value keeps the given shape or gets its default shape |
| LegacyTensor.TsTensor.RegisterChildren | lib/Tensor.ts:29-33 | `for…of` appends the tensors in order |
| LegacyTensor.TsTensor.Operation | lib/Tensor.ts:141-175 | as in the JS version, but a new result gets `require_grad` as its shape and the operand list as its `require_grad`; any other operand returns this unchanged |
| LegacyTensor.TsDimsAgree | lib/Tensor.ts:141-175 | with list-of-number shapes, both versions of `operation` compute the same result |
| LegacyTensor.TsShapeGuard | lib/Tensor.ts:145-147 | a list-of-number shape passes the textual comparison exactly when the lists are equal |
| LegacyTensor.MisalignedGuard | lib/Tensor.ts:153-158 | two results with boolean shapes pass the check although their arrays have different shapes, where utils/Tensor.js reports a mismatch |
| LegacyTensor.SecondGenerationEmpties | lib/Tensor.ts:120-138 | with a list of two or more tensors as its shape, an operation with a number, or with a tensor whose shape prints alike, yields an empty array |
| LegacyTensor.TsTensor.Reshape | lib/Tensor.ts:259-269 | the value is reshaped and the shape set to the new shape |
| LegacyTensor.TsTensor.Repeat | lib/Tensor.ts:287-296 | the value is repeated, then the shape is recomputed |
| LegacyTensor.TsTensor.SumAll | lib/Tensor.ts:339-345 | the value becomes [total of value.flat(shape.length)] and the shape [1], where a boolean shape flattens one level |
| LegacyTensor.TsTensor.StaticSumAll | lib/Tensor.ts:334-337 | the constructor receives `true` as the shape and [t] as `require_grad` |
| LegacyTensor.FlagShapeSumAll | lib/Tensor.ts:342 | on a matrix, a boolean shape sums exactly as the shape [n, m] would |

## Left out

- User interface, DOM and file reading. This covers src/displayJs, src/train.ts, compiled/UI and compiled/Demos. It has no logic to state.
- `loadModelFromJson`, `loadModelData` and `parseData` in src/extras.ts: they depend on fetch, FileReader and `eval`.
- `toJson`/`loadData` of src/Layer.ts and src/Model.ts: they serialise by reflection and `eval`.
- `Tensor.toString`, the legacy `toString`, `console.log`, and JavaScript's number-to-text formatting. The model code prints the default literals as fixed text.
- Floating point: numbers are reals, with no NaN, Infinity or rounding.
  - The one NaN that matters is SGD's `minLr` without an lr option, which is modelled as `None`.
  - The loss-is-Infinity test of `Trainer.loop` is an input flag.
- `setTimeout` in `Trainer.train` is modelled as a record of the scheduled loops, in order. The loops themselves are not run from `train`.
- Subtract, Multiply, NanToNum and Transpose are not part of this model. Their contracts are assumed:
  - `Subtract.diff` and `Multiply.product` are elementwise on arrays of one shape (`Kernels.Diff`, `Kernels.Product2`).
  - `Transpose` computes `TensorUtils.transpose`.
- `TensorUtils.argmax`, which src/Metric.ts:15 calls, is not defined in src/TensorUtils.ts and is not part of this model. It is assumed to be the `argmax` of src/displayJs/demo.ts:5-7 (`Metrics.ArgMax`): the first index of a maximum of the list.
- TensorUtils.Reshape: a zero dimension with a non-empty input and one axis is modelled as leaving the array alone. The source then sets the array's property "NaN", which no later flattening reads.
- Kernels.UnNanify: the identity, because the model has no NaN.
- Adam, CrossEntropy, Softmax and the other loss classes are not part of this model. src/Adam.ts is a stub.
- The scratch scripts src/Test.ts and src/w.ts, and the top-level demo lines of the legacy files.
- The closure-based autograd of the legacy tensors is not modelled: `addGradientFunction`, `backward`, `getGradients`, `onesLike`, the gradient hooks of `reshape`/`repeat` and the closures passed by `multiply`/`divide`/`powerE`. The `gradientFunctions`, `backFunctions` and `parent_grads` fields are not represented.
- The legacy `add`, `subtract` and `powerE` wrappers are not modelled separately. Each is `operation` with its element function, and `operation` is modelled for addition, subtraction, multiplication and division.
- The legacy `multiply` (utils/Tensor.js:260-273, lib/Tensor.ts:194-205) is not modelled separately, and its scalar cases are left out. It first replaces a tensor operand whose shape flattens to `1` with its single number. When `this` has such a shape, it skips `operation` altogether: it multiplies a copy of the operand by `this.value.flat()[0]`, stores that value, and takes the operand's shape. Only its remaining path, `operation` with multiplication, is modelled.
- `flatten()` and `copy()` of the legacy classes.
- Backprop.Backward: works on a value-level graph whose tensors are numbered in creation order, with gradients as a map. It does not work on the heap objects of `Autograd`. Aliasing between handlers, and the `Tensor.backward` delegation, are therefore not modelled.
- Aliasing of sub-arrays is not modelled, because arrays are values: sibling slots sharing one array, or a caller keeping a reference into a tensor's array.
- Ragged arrays: a tensor value is a rectangular array, and `Rect` is required where the source would compute on a ragged one.
- JavaScript coercions (`isNaN` on arrays, string keys, `undefined` arithmetic) are modelled only where the source depends on them. Elsewhere they are reported as `NonNumeric` or `Crash`.
- TensorUtils.Transpose: requires a two-dimensional rectangular array. The source also runs on other inputs, with JavaScript's undefined-reading results.
- Metrics.Accuracy.Forward: `flat(20)` is modelled as a full flattening. Arrays nested deeper than 21 levels are not distinguished.
- Training.OneHotSpec, Training.Trainer.Train: a one-hot label index of 10 or more is outside the model (`None`), because it would leave holes in a longer JavaScript array. `Train` then stops with `NonNumeric` where the source still schedules that sample's loop.
- LegacyTensor.TsTensor.Operation: whether two non-empty lists of tensors print alike is the parameter `refsAlike`. It is not computed from `JSON.stringify` of those tensors.
- Layers.LinearShape: with `relu`, requires at least two outputs. A one-entry row looks like a number to `Max.max`, and the clamp then collapses it (`Kernels.ReluSingletonExample`).
- Kernels.MeanOfRankTwo: states Mean only for rank 1 and 2, where one level of `flat()` reaches every number.
- Training.Trainer.Loop: the forward output `out`, the stage that throws with its error (`thrown`) and the loss-is-Infinity flag are inputs. The loop does not run the network, loss, Mean, backward or optimiser models to obtain them. It records the calls it makes and carries on from these inputs.
- Layers.Sequential.Forward: the per-layer state of the reused operations is stated only when no two layers share an operation object (`SeparateOps`). A layer added twice runs twice on the same objects, and only its last pass is kept.
- A number's shape is `[undefined]` in JavaScript. The model writes it as the empty shape, and states its one use, Mean's `elementCount`, explicitly (`Kernels.MeanElementCount`).
