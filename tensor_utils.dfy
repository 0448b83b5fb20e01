/** The array algorithms of `TensorUtils`: filling, transposing, index
    decomposition, reshaping and shape calculation, each proved against the
    value-level definitions of `NArrays`. */
module TensorUtils {

  import opened Results
  import opened NArrays
  import Kernels

  /** `filledArray(shape, fillValue)`: a fresh array of `shape[0]` slots, each
      filled by its own recursive call; the bare fill value for the empty shape. */
  method FilledArray(shape: seq<nat>, fillValue: real) returns (r: NArr)
    ensures r == Filled(shape, fillValue)
    decreases |shape|
  {
    if |shape| == 0 {
      return Leaf(fillValue);
    }
    var slots := new NArr[shape[0]];
    var i := 0;
    while i < slots.Length
      invariant 0 <= i <= slots.Length
      invariant forall k :: 0 <= k < i ==> slots[k] == Filled(shape[1..], fillValue)
    {
      slots[i] := FilledArray(shape[1..], fillValue);
      i := i + 1;
    }
    r := Node(slots[..]);
    assert r.items == seq(shape[0], _ => Filled(shape[1..], fillValue));
  }

  /** `transpose` of a two-dimensional array: a cols × rows buffer of zeros
      receives result[j][i] = a[i][j]; `array[0].length` fails on no rows. */
  method Transpose(a: NArr) returns (r: Result<NArr>)
    requires IsMatrix(a)
    ensures r == Kernels.TransposeResult(a)
    ensures r.Ok? ==> forall i, j :: 0 <= i < |a.items| && 0 <= j < Cols(a) ==>
              At(r.value, j, i) == At(a, i, j)
  {
    if |a.items| == 0 {
      return Err(Crash);
    }
    MatrixEntries(a);
    var rows, cols := |a.items|, Cols(a);
    var result := new real[cols, rows]((_, _) => 0.0);
    for i := 0 to rows
      invariant forall i', j :: 0 <= i' < i && 0 <= j < cols ==> result[j, i'] == At(a, i', j)
    {
      for j := 0 to |a.items[i].items|
        invariant forall i', j' :: 0 <= i' < i && 0 <= j' < cols ==> result[j', i'] == At(a, i', j')
        invariant forall j' :: 0 <= j' < j ==> result[j', i] == At(a, i, j')
      {
        result[j, i] := a.items[i].items[j].x;
      }
    }
    r := Ok(Kernels.FromArray2(result));
    MatrixExt(r.value, Transposed(a));
  }

  /** Product(s[k..]) peels off its first factor. */
  lemma ProductStep(s: seq<nat>, k: nat)
    requires k < |s|
    ensures Product(s[k..]) == s[k] * Product(s[k + 1..])
  {
    assert s[k..][1..] == s[k + 1..];
  }

  /** Prepending a digit to an index adds digit × stride. */
  lemma RowMajorStep(d: nat, p: seq<nat>, s: seq<nat>, k: nat)
    requires k < |s| && |p| == |s| - (k + 1)
    ensures RowMajor([d] + p, s[k..]) == d * Product(s[k + 1..]) + RowMajor(p, s[k + 1..])
  {
    assert ([d] + p)[1..] == p;
    assert s[k..][1..] == s[k + 1..];
  }

  /** x = q·P + r with 0 <= r < P determines r as x % P. */
  lemma ModUnique(x: nat, q: nat, r: nat, P: nat)
    requires P > 0 && r < P && x == q * P + r
    ensures r == x % P && q == x / P
  {
    var q', r' := x / P, x % P;
    assert x == q' * P + r';
    assert q * P < (q' + 1) * P;
    MulStrictRev(q, q' + 1, P);
    assert q' * P < (q + 1) * P;
    MulStrictRev(q', q + 1, P);
  }

  /** Multiplying by a positive factor keeps strict order. */
  lemma MulStrictRev(a: int, b: int, P: int)
    requires P > 0 && a * P < b * P
    ensures a < b
  {
  }

  /** One step of the digit loop keeps `index == idx·stride + offset`. */
  lemma DigitStep(index: nat, idx: nat, d: nat, P: nat, R: nat)
    requires d > 0 && index == idx * P + R
    ensures index == (idx / d) * (d * P) + ((idx % d) * P + R)
  {
    var q, m := idx / d, idx % d;
    assert idx == q * d + m;
    assert idx * P == (q * d + m) * P;
    assert (q * d + m) * P == q * d * P + m * P;
    assert q * d * P == q * (d * P);
  }

  /** `getIndices(index, shape)`: digits from the last axis to the first,
      `index % shape[i]` then `floor(index / shape[i])`. The result is an
      in-range index whose row-major offset is `index` modulo the element count,
      and its last digit varies fastest. */
  method GetIndices(index: nat, shape: seq<nat>) returns (indices: seq<nat>)
    requires Positive(shape)
    ensures InRange(indices, shape)
    ensures RowMajor(indices, shape) == index % Product(shape)
    ensures |shape| > 0 ==> indices[|shape| - 1] == index % shape[|shape| - 1]
  {
    indices := [];
    var idx: nat := index;
    var i := |shape|;
    while i > 0
      invariant 0 <= i <= |shape|
      invariant |indices| == |shape| - i && InRange(indices, shape[i..])
      invariant index == idx * Product(shape[i..]) + RowMajor(indices, shape[i..])
      invariant i < |shape| ==> indices[|indices| - 1] == index % shape[|shape| - 1]
    {
      i := i - 1;
      var d := shape[i];
      var P := Product(shape[i + 1..]);
      var R := RowMajor(indices, shape[i + 1..]);
      ProductStep(shape, i);
      DigitStep(index, idx, d, P, R);
      RowMajorStep(idx % d, indices, shape, i);
      if i == |shape| - 1 {
        assert indices == [] && P == 1 && R == 0;
        ModUnique(index, idx / d, idx % d, d);
      }
      indices := [idx % d] + indices;
      idx := idx / d;
    }
    assert shape[0..] == shape;
    RowMajorBound(indices, shape);
    ModUnique(index, idx, RowMajor(indices, shape), Product(shape));
  }

  /** Below the element count, getIndices inverts the row-major offset. */
  lemma GetIndicesRoundTrip(index: nat, shape: seq<nat>, indices: seq<nat>)
    requires Positive(shape) && index < Product(shape)
    requires InRange(indices, shape) && RowMajor(indices, shape) == index % Product(shape)
    ensures RowMajor(indices, shape) == index
  {
    ModUnique(index, 0, index, Product(shape));
  }

  /** `setElement(array, indices, value)`: walk down to the array holding the
      last index, then assign that slot; on values the walk keeps the arrays
      passed and the write rebuilds them from the slot upwards. */
  method SetElement(arr: NArr, indices: seq<nat>, value: real) returns (r: NArr)
    requires Writable(arr, indices)
    ensures r == SetAt(arr, indices, value)
  {
    var n := |indices| - 1;
    var path := WalkDown(arr, indices);
    WritableAlong(arr, indices, path, n);
    r := Node(path[n].items[indices[n] := Leaf(value)]);
    var i := n;
    while i > 0
      invariant 0 <= i <= n && Writable(path[i], indices[i..])
      invariant r == SetAt(path[i], indices[i..], value)
    {
      i := i - 1;
      WritableAlong(arr, indices, path, i);
      SetAtStep(path[i], indices, i, value);
      r := Node(path[i].items[indices[i] := r]);
    }
    DropNothing(indices);
  }

  /** Each step of a path below `arr` along the indices. */
  ghost predicate Links(path: seq<NArr>, indices: seq<nat>)
  {
    |path| <= |indices| &&
    forall k :: 0 <= k < |path| - 1 ==>
      path[k].Node? && indices[k] < |path[k].items| && path[k + 1] == path[k].items[indices[k]]
  }

  /** The walk of `setElement`: the arrays met on the way to the last index. */
  method WalkDown(arr: NArr, indices: seq<nat>) returns (path: seq<NArr>)
    requires Writable(arr, indices)
    ensures |path| == |indices| && path[0] == arr && Links(path, indices)
  {
    var n := |indices| - 1;
    path := [arr];
    var i := 0;
    while i < n
      invariant 0 <= i <= n && |path| == i + 1 && path[0] == arr
      invariant Links(path, indices) && Writable(path[i], indices[i..])
    {
      var next := path[i].items[indices[i]];
      WritableNext(path[i], indices, i);
      AppendKeeps(path, next);
      path := path + [next];
      i := i + 1;
    }
  }

  /** Every array of a walk from a writable start is writable along the rest. */
  lemma {:induction false} WritableAlong(arr: NArr, indices: seq<nat>, path: seq<NArr>, k: nat)
    requires Writable(arr, indices) && |path| > 0 && path[0] == arr && Links(path, indices)
    requires k < |path|
    ensures Writable(path[k], indices[k..])
  {
    if k == 0 {
      assert indices[0..] == indices;
    } else {
      WritableAlong(arr, indices, path, k - 1);
      WritableNext(path[k - 1], indices, k - 1);
    }
  }

  /** Appending keeps every earlier element where it was. */
  lemma AppendKeeps<T>(xs: seq<T>, x: T)
    ensures forall k :: 0 <= k < |xs| ==> (xs + [x])[k] == xs[k]
  {
  }

  lemma DropNothing<T>(xs: seq<T>)
    ensures xs[0..] == xs
  {
  }

  /** One step down a writable path stays writable. */
  lemma WritableNext(a: NArr, indices: seq<nat>, i: nat)
    requires i + 1 < |indices| && Writable(a, indices[i..])
    ensures a.Node? && indices[i] < |a.items| && Writable(a.items[indices[i]], indices[i + 1..])
  {
    assert indices[i..][1..] == indices[i + 1..];
  }

  /** Writing along indices[i..] rewrites one slot with the write along the rest. */
  lemma SetAtStep(a: NArr, indices: seq<nat>, i: nat, v: real)
    requires i + 1 < |indices| && Writable(a, indices[i..])
    ensures Writable(a.items[indices[i]], indices[i + 1..])
    ensures SetAt(a, indices[i..], v) == Node(a.items[indices[i] := SetAt(a.items[indices[i]], indices[i + 1..], v)])
  {
    assert indices[i..][1..] == indices[i + 1..];
  }

  /** The flat contents `reshape` leaves behind: start from `P` zeros and let
      entry i overwrite offset i % P, in order. */
  function Overlay(flat: seq<real>, P: nat): (r: seq<real>)
    requires P > 0
    ensures |r| == P
  {
    if flat == [] then Zeros(P)
    else Overlay(flat[..|flat| - 1], P)[(|flat| - 1) % P := flat[|flat| - 1]]
  }

  /** With at most P entries the flat values come first and zeros fill the rest. */
  lemma {:induction false} OverlayShort(flat: seq<real>, P: nat)
    requires P > 0 && |flat| <= P
    ensures Overlay(flat, P) == flat + Zeros(P - |flat|)
  {
    if flat != [] {
      var n := |flat| - 1;
      var init := flat[..n];
      OverlayShort(init, P);
      ModSmall(n, P);
      OverlayPush(init + Zeros(P - n), flat[n], P - n, flat + Zeros(P - |flat|));
    }
  }

  /** A value below the divisor is its own remainder. */
  lemma ModSmall(n: nat, P: nat)
    requires n < P
    ensures n % P == n
  {
  }

  /** Writing x over the first of k trailing zeros moves x into the flat
      part: the step of OverlayShort. */
  lemma OverlayPush(prev: seq<real>, x: real, k: nat, next: seq<real>)
    requires 0 < k <= |prev| && |next| == |prev|
    requires forall q :: |prev| - k <= q < |prev| ==> prev[q] == 0.0
    requires forall q :: 0 <= q < |prev| - k ==> next[q] == prev[q]
    requires next[|prev| - k] == x
    requires forall q :: |prev| - k < q < |prev| ==> next[q] == 0.0
    ensures prev[|prev| - k := x] == next
  {
  }

  /** With exactly P entries reshape keeps all of them, in order. */
  lemma OverlayExact(flat: seq<real>, P: nat)
    requires P > 0 && |flat| == P
    ensures Overlay(flat, P) == flat
  {
    OverlayShort(flat, P);
  }

  /** `reshape(array, shape)`: a zero-filled array of `shape` receives the
      flattened input entry by entry at `getIndices(i, shape)`. With an
      empty shape the zero-filled "array" is the number 0, and the first
      write to one of its properties throws in strict-mode class code. With
      a zero dimension, `getIndices` puts NaN first: for a one-axis shape the
      write lands on the property "NaN" and leaves the elements alone, for a
      longer shape the walk reads `result[NaN]`, undefined, and throws. A
      number input throws first, in the `reduce` of `flatten`. */
  method Reshape(arr: NArr, shape: seq<nat>) returns (r: Result<NArr>)
    ensures arr.Leaf? ==> r == Err(Crash)
    ensures arr.Node? && |shape| == 0 ==> r == if Flatten(arr) == [] then Ok(Leaf(0.0)) else Err(Crash)
    ensures arr.Node? && |shape| > 0 && !Positive(shape) ==>
              r == if Flatten(arr) == [] || |shape| == 1 then Ok(Filled(shape, 0.0)) else Err(Crash)
    ensures arr.Node? && |shape| > 0 && Positive(shape) ==>
              r.Ok? && HasShape(r.value, shape) && Shape(r.value) == shape &&
              Flatten(r.value) == Overlay(Flatten(arr), Product(shape))
  {
    var result := FilledArray(shape, 0.0);
    if arr.Leaf? {
      return Err(Crash);
    }
    var flat := Flatten(arr);
    if |shape| == 0 || !Positive(shape) {
      for i := 0 to |flat|
        invariant result == Filled(shape, 0.0)
        invariant i > 0 ==> |shape| == 1 && !Positive(shape)
      {
        if |shape| != 1 || Positive(shape) {
          return Err(Crash);
        }
      }
      return Ok(result);
    }
    Kernels.ProductPositive(shape);
    var P := Product(shape);
    FilledFlatten(shape, 0.0);
    assert Flatten(result) == Zeros(P);
    for i := 0 to |flat|
      invariant HasShape(result, shape)
      invariant Flatten(result) == Overlay(flat[..i], P)
    {
      var indices := GetIndices(i, shape);
      FlattenSetAt(result, shape, indices, flat[i]);
      SetAtHasShape(result, shape, indices, flat[i]);
      result := SetElement(result, indices, flat[i]);
      assert flat[..i + 1][..i] == flat[..i];
    }
    assert flat[..|flat|] == flat;
    ShapeOfHasShape(result, shape);
    r := Ok(result);
  }

  /** When the input has exactly Product(shape) leaves, reshape keeps them in
      row-major order: flatten(reshape(a, s)) == flatten(a). */
  lemma ReshapeRoundTrip(arr: NArr, shape: seq<nat>, result: NArr)
    requires |shape| > 0 && Positive(shape) && |Flatten(arr)| == Product(shape)
    requires Flatten(result) == Overlay(Flatten(arr), Product(shape))
    ensures Flatten(result) == Flatten(arr)
  {
    OverlayExact(Flatten(arr), Product(shape));
  }

  /** Fewer leaves than slots: the slots past the input keep the fill 0. */
  lemma ReshapeShort(arr: NArr, shape: seq<nat>, result: NArr)
    requires |shape| > 0 && Positive(shape) && |Flatten(arr)| <= Product(shape)
    requires Flatten(result) == Overlay(Flatten(arr), Product(shape))
    ensures Flatten(result)[.. |Flatten(arr)|] == Flatten(arr)
    ensures forall q :: 0 <= q < Product(shape) && q >= |Flatten(arr)| ==> Flatten(result)[q] == 0.0
  {
    OverlayShort(Flatten(arr), Product(shape));
  }

  /** `calculateShape(array, shape)`: push the length, recurse into the first
      element while it is an array. */
  method CalculateShape(arr: NArr, shape: seq<nat>) returns (r: seq<nat>)
    requires arr.Node?
    ensures r == shape + Shape(arr)
    decreases arr
  {
    var acc := shape + [|arr.items|];
    if |arr.items| > 0 && arr.items[0].Node? {
      r := CalculateShape(arr.items[0], acc);
    } else {
      r := acc;
    }
  }
}
