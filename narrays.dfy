/** Nested numeric arrays (the `NumArray` / `NestedArray<number>` values of the
    engine), their derived shape, row-major flattening and index algebra. */
module NArrays {

  import opened Results

  /** A possibly nested array of numbers. */
  datatype NArr = Leaf(x: real) | Node(items: seq<NArr>)

  /** The shape as the engine computes it: push the length, then follow the
      first element while it is an array. A number's shape is `[undefined]`
      in JavaScript (the length of a number); it is written [] here. */
  function Shape(a: NArr): seq<nat>
  {
    match a
    case Leaf(_) => []
    case Node(s) => [|s|] + (if |s| > 0 && s[0].Node? then Shape(s[0]) else [])
  }

  /** `a` is a rectangular array of shape `s`: every array at depth k has
      length s[k] and the leaves sit exactly at depth |s|. */
  predicate HasShape(a: NArr, s: seq<nat>)
  {
    if s == [] then a.Leaf?
    else a.Node? && |a.items| == s[0] &&
         forall i :: 0 <= i < |a.items| ==> HasShape(a.items[i], s[1..])
  }

  /** Rectangular: the shape read along first elements describes every element. */
  predicate Rect(a: NArr)
  {
    HasShape(a, Shape(a))
  }

  /** A tensor value: a rectangular array (never a bare number). */
  predicate IsTensorValue(a: NArr)
  {
    a.Node? && Rect(a)
  }

  /** Two rectangular arrays of the same shape. */
  predicate SameShape(a: NArr, b: NArr)
  {
    Rect(a) && Rect(b) && Shape(a) == Shape(b)
  }

  function Product(s: seq<nat>): (r: nat)
    ensures Positive(s) ==> r > 0
  {
    if s == [] then 1 else s[0] * Product(s[1..])
  }

  predicate Positive(s: seq<nat>)
  {
    forall k :: 0 <= k < |s| ==> s[k] > 0
  }

  /** Row-major list of leaves: `array.reduce((acc, v) => acc.concat(...), [])`. */
  function Flatten(a: NArr): seq<real>
    decreases a, 1
  {
    match a
    case Leaf(x) => [x]
    case Node(s) => FlattenAll(s)
  }

  function FlattenAll(s: seq<NArr>): seq<real>
    decreases s, 0
  {
    if s == [] then [] else FlattenAll(s[..|s| - 1]) + Flatten(s[|s| - 1])
  }

  /** Every leaf equals `v`. */
  predicate Uniform(a: NArr, v: real)
  {
    match a
    case Leaf(x) => x == v
    case Node(s) => forall i :: 0 <= i < |s| ==> Uniform(s[i], v)
  }

  /** `p` addresses a leaf of an array of shape `s`. */
  predicate InRange(p: seq<nat>, s: seq<nat>)
  {
    |p| == |s| && forall k :: 0 <= k < |p| ==> p[k] < s[k]
  }

  /** Row-major offset of index `p` in shape `s`; the last axis varies fastest. */
  function RowMajor(p: seq<nat>, s: seq<nat>): nat
    requires |p| == |s|
  {
    if s == [] then 0 else p[0] * Product(s[1..]) + RowMajor(p[1..], s[1..])
  }

  /** The sub-array reached by following path `p`, if every step is in range. */
  function Get(a: NArr, p: seq<nat>): Option<NArr>
  {
    if p == [] then Some(a)
    else if a.Node? && p[0] < |a.items| then Get(a.items[p[0]], p[1..])
    else None
  }

  /** A non-empty path through arrays whose last step is in range of an array. */
  predicate Writable(a: NArr, p: seq<nat>)
  {
    |p| > 0 && a.Node? && p[0] < |a.items| && (|p| > 1 ==> Writable(a.items[p[0]], p[1..]))
  }

  /** The array after writing leaf `v` at path `p` (setElement walks to the
      parent array and assigns its slot). */
  function SetAt(a: NArr, p: seq<nat>, v: real): NArr
    requires Writable(a, p)
  {
    if |p| == 1 then Node(a.items[p[0] := Leaf(v)])
    else Node(a.items[p[0] := SetAt(a.items[p[0]], p[1..], v)])
  }

  /** Structurally equal trees up to leaf values. */
  predicate Congruent(a: NArr, b: NArr)
  {
    match a
    case Leaf(_) => b.Leaf?
    case Node(s) => b.Node? && |b.items| == |s| &&
                    forall i :: 0 <= i < |s| ==> Congruent(s[i], b.items[i])
  }

  /** Leafwise combination following the structure of two congruent arrays. */
  function ZipWith(a: NArr, b: NArr, f: (real, real) -> real): NArr
    requires Congruent(a, b)
  {
    match a
    case Leaf(x) => Leaf(f(x, b.x))
    case Node(s) => Node(seq(|s|, i requires 0 <= i < |s| => ZipWith(s[i], b.items[i], f)))
  }

  /** Leafwise map. */
  function MapLeaves(a: NArr, f: real -> real): NArr
  {
    match a
    case Leaf(x) => Leaf(f(x))
    case Node(s) => Node(seq(|s|, i requires 0 <= i < |s| => MapLeaves(s[i], f)))
  }

  function Sum(s: seq<real>): real
  {
    if s == [] then 0.0 else Sum(s[..|s| - 1]) + s[|s| - 1]
  }

  function Zeros(n: nat): (r: seq<real>)
    ensures |r| == n && forall k :: 0 <= k < n ==> r[k] == 0.0
  {
    seq(n, _ => 0.0)
  }

  // ---------------------------------------------------------------------------
  // Shape lemmas

  /** With every dimension positive, the first-element shape of an array of
      shape `s` is `s` itself. */
  lemma {:induction false} ShapeOfHasShape(a: NArr, s: seq<nat>)
    requires HasShape(a, s) && Positive(s)
    ensures Shape(a) == s
  {
    if s != [] {
      if |s| > 1 {
        assert Positive(s[1..]);
        ShapeOfHasShape(a.items[0], s[1..]);
      } else {
        assert a.items[0].Leaf?;
      }
    }
  }

  /** The shape a rectangular array has is unique. */
  lemma {:induction false} HasShapeRect(a: NArr, s: seq<nat>)
    requires HasShape(a, s) && Positive(s)
    ensures Rect(a) && Shape(a) == s
  {
    ShapeOfHasShape(a, s);
  }

  /** A flat array of n numbers has shape [n]. */
  lemma FlatShape(s: seq<NArr>)
    requires forall i :: 0 <= i < |s| ==> s[i].Leaf?
    ensures Shape(Node(s)) == [|s|] && Rect(Node(s))
  {
  }

  /** Each nesting level of first elements adds one dimension. */
  lemma NestedShape(s: seq<NArr>)
    requires |s| > 0 && s[0].Node?
    ensures Shape(Node(s)) == [|s|] + Shape(s[0])
  {
  }

  /** Arrays of the same shape are congruent. */
  lemma {:induction false} HasShapeCongruent(a: NArr, b: NArr, s: seq<nat>)
    requires HasShape(a, s) && HasShape(b, s)
    ensures Congruent(a, b)
  {
    if s != [] {
      forall i | 0 <= i < |a.items|
        ensures Congruent(a.items[i], b.items[i])
      {
        HasShapeCongruent(a.items[i], b.items[i], s[1..]);
      }
    }
  }

  lemma SameShapeCongruent(a: NArr, b: NArr)
    requires SameShape(a, b)
    ensures Congruent(a, b)
  {
    HasShapeCongruent(a, b, Shape(a));
  }

  /** A congruent array has the same shape. */
  lemma {:induction false} CongruentHasShape(a: NArr, b: NArr, s: seq<nat>)
    requires HasShape(a, s) && Congruent(a, b)
    ensures HasShape(b, s)
  {
    if s != [] {
      forall i | 0 <= i < |b.items|
        ensures HasShape(b.items[i], s[1..])
      {
        CongruentHasShape(a.items[i], b.items[i], s[1..]);
      }
    }
  }

  /** Congruent arrays have the same first-element shape. */
  lemma {:induction false} CongruentShape(a: NArr, b: NArr)
    requires Congruent(a, b)
    ensures Shape(a) == Shape(b)
  {
    if a.Node? && |a.items| > 0 && a.items[0].Node? {
      CongruentShape(a.items[0], b.items[0]);
    }
  }

  lemma CongruentSameShape(a: NArr, b: NArr)
    requires Rect(a) && Congruent(a, b)
    ensures SameShape(a, b)
  {
    CongruentShape(a, b);
    CongruentHasShape(a, b, Shape(a));
  }

  // ---------------------------------------------------------------------------
  // Flattening

  lemma {:induction false} FlattenAllAppend(s: seq<NArr>, t: seq<NArr>)
    ensures FlattenAll(s + t) == FlattenAll(s) + FlattenAll(t)
    decreases |t|
  {
    if t == [] {
      assert s + t == s;
    } else {
      var n := |t| - 1;
      assert (s + t)[..|s + t| - 1] == s + t[..n];
      assert (s + t)[|s + t| - 1] == t[n];
      FlattenAllAppend(s, t[..n]);
    }
  }

  /** An array of shape `s` has Product(s) leaves. */
  lemma {:induction false} FlattenLength(a: NArr, s: seq<nat>)
    requires HasShape(a, s)
    ensures |Flatten(a)| == Product(s)
    decreases s, 0
  {
    if s != [] {
      FlattenAllBlocks(a.items, s[1..]);
    }
  }

  /** The flattening of equally shaped arrays has one block of Product(s)
      leaves per array. */
  lemma {:induction false} FlattenAllBlocks(items: seq<NArr>, s: seq<nat>)
    requires forall i :: 0 <= i < |items| ==> HasShape(items[i], s)
    ensures |FlattenAll(items)| == |items| * Product(s)
    ensures forall j :: 0 <= j < |items| ==> |Flatten(items[j])| == Product(s)
    decreases s, 1, |items|
  {
    if items != [] {
      var n := |items| - 1;
      FlattenAllBlocks(items[..n], s);
      FlattenLength(items[n], s);
      Distrib(n, Product(s));
      forall j | 0 <= j < |items| ensures |Flatten(items[j])| == Product(s) {
        if j < n { assert items[j] == items[..n][j]; }
      }
    }
  }

  /** Leaf r of block j sits at offset j * Product(s) + r of the flattening. */
  lemma {:induction false} FlattenAllBlock(items: seq<NArr>, s: seq<nat>, j: nat, r: nat)
    requires forall i :: 0 <= i < |items| ==> HasShape(items[i], s)
    requires j < |items| && r < Product(s)
    ensures r < |Flatten(items[j])| && j * Product(s) + r < |FlattenAll(items)|
    ensures FlattenAll(items)[j * Product(s) + r] == Flatten(items[j])[r]
    decreases |items|
  {
    var n := |items| - 1;
    var P := Product(s);
    var A, B := FlattenAll(items[..n]), Flatten(items[n]);
    FlattenAllBlocks(items, s);
    FlattenAllBlocks(items[..n], s);
    assert FlattenAll(items) == A + B;
    MulBound(j, n, P, r);
    if j < n {
      assert items[j] == items[..n][j];
      FlattenAllBlock(items[..n], s, j, r);
      ConcatLeft(A, B, j * P + r);
    } else {
      ConcatRight(A, B, n * P, r);
    }
  }

  /** j <= n and r < P give j * P + r < (n + 1) * P, and j < n gives j * P + r < n * P. */
  lemma MulBound(j: nat, n: nat, P: nat, r: nat)
    requires j <= n && r < P
    ensures j * P + r < (n + 1) * P
    ensures j < n ==> j * P + r < n * P
    ensures j == n ==> j * P + r >= n * P
  {
    assert j * P <= n * P by { MulMono(j, n, P); }
    if j < n {
      assert (j + 1) * P <= n * P by { MulMono(j + 1, n, P); }
    }
  }

  lemma ConcatLeft<T>(A: seq<T>, B: seq<T>, k: nat)
    requires k < |A|
    ensures (A + B)[k] == A[k]
  {
  }

  lemma ConcatRight<T>(A: seq<T>, B: seq<T>, base: nat, r: nat)
    requires base == |A| && r < |B|
    ensures (A + B)[base + r] == B[r]
  {
  }

  lemma Distrib(n: nat, P: nat)
    ensures (n + 1) * P == n * P + P
  {
  }

  lemma MulMono(a: nat, b: nat, c: nat)
    requires a <= b
    ensures a * c <= b * c
  {
  }

  /** The leaf at row-major offset RowMajor(p, s) is the leaf at path p. */
  lemma {:induction false} FlattenAt(a: NArr, s: seq<nat>, p: seq<nat>)
    requires HasShape(a, s) && InRange(p, s)
    ensures RowMajor(p, s) < |Flatten(a)|
    ensures Get(a, p).Some? && Get(a, p).value.Leaf?
    ensures Flatten(a)[RowMajor(p, s)] == Get(a, p).value.x
    decreases s
  {
    FlattenLength(a, s);
    RowMajorBound(p, s);
    if s != [] {
      var P := Product(s[1..]);
      assert InRange(p[1..], s[1..]);
      FlattenAt(a.items[p[0]], s[1..], p[1..]);
      RowMajorBound(p[1..], s[1..]);
      FlattenAllBlock(a.items, s[1..], p[0], RowMajor(p[1..], s[1..]));
    }
  }

  /** Row-major offsets stay below the element count. */
  lemma {:induction false} RowMajorBound(p: seq<nat>, s: seq<nat>)
    requires InRange(p, s)
    ensures RowMajor(p, s) < Product(s)
    decreases s
  {
    if s != [] {
      assert InRange(p[1..], s[1..]);
      RowMajorBound(p[1..], s[1..]);
      var P := Product(s[1..]);
      MulBound(p[0], s[0] - 1, P, RowMajor(p[1..], s[1..]));
    }
  }

  /** An in-range index is writable in an array of that shape. */
  lemma {:induction false} InRangeWritable(a: NArr, s: seq<nat>, p: seq<nat>)
    requires HasShape(a, s) && InRange(p, s) && |s| > 0
    ensures Writable(a, p)
    decreases s
  {
    if |s| > 1 {
      assert InRange(p[1..], s[1..]);
      InRangeWritable(a.items[p[0]], s[1..], p[1..]);
    }
  }

  /** Writing a leaf keeps the shape. */
  lemma {:induction false} SetAtHasShape(a: NArr, s: seq<nat>, p: seq<nat>, v: real)
    requires HasShape(a, s) && InRange(p, s) && |s| > 0
    ensures Writable(a, p) && HasShape(SetAt(a, p, v), s)
    decreases s
  {
    InRangeWritable(a, s, p);
    if |s| > 1 {
      assert InRange(p[1..], s[1..]);
      SetAtHasShape(a.items[p[0]], s[1..], p[1..], v);
    }
  }

  /** setElement changes exactly the leaf at `p`: in row-major order it is one
      point update at offset RowMajor(p, s). */
  lemma {:induction false} FlattenSetAt(a: NArr, s: seq<nat>, p: seq<nat>, v: real)
    requires HasShape(a, s) && InRange(p, s) && |s| > 0
    ensures Writable(a, p) && RowMajor(p, s) < |Flatten(a)|
    ensures Flatten(SetAt(a, p, v)) == Flatten(a)[RowMajor(p, s) := v]
    decreases s
  {
    SetAtHasShape(a, s, p, v);
    FlattenLength(a, s);
    RowMajorBound(p, s);
    var b := SetAt(a, p, v);
    var s' := s[1..];
    var r0 := RowMajor(p[1..], s');
    assert InRange(p[1..], s');
    RowMajorBound(p[1..], s');
    var child := a.items[p[0]];
    if |s| == 1 {
      assert child.Leaf? && b.items[p[0]] == Leaf(v);
      assert Flatten(b.items[p[0]]) == Flatten(child)[0 := v];
    } else {
      FlattenSetAt(child, s', p[1..], v);
    }
    BlockUpdate(a.items, b.items, s', p[0], r0, v);
  }

  /** Updating one leaf of one block of equally shaped arrays is a point update
      of the concatenation. */
  lemma {:induction false} BlockUpdate(items: seq<NArr>, items': seq<NArr>, s: seq<nat>, j0: nat, r0: nat, v: real)
    requires |items| == |items'| && j0 < |items| && r0 < Product(s)
    requires forall i :: 0 <= i < |items| ==> HasShape(items[i], s) && HasShape(items'[i], s)
    requires forall j :: 0 <= j < |items| && j != j0 ==> items'[j] == items[j]
    requires r0 < |Flatten(items[j0])| && Flatten(items'[j0]) == Flatten(items[j0])[r0 := v]
    ensures j0 * Product(s) + r0 < |FlattenAll(items)|
    ensures FlattenAll(items') == FlattenAll(items)[j0 * Product(s) + r0 := v]
    decreases |items|
  {
    var n := |items| - 1;
    var P := Product(s);
    FlattenAllBlocks(items[..n], s);
    FlattenAllBlocks(items, s);
    var A, B := FlattenAll(items[..n]), Flatten(items[n]);
    assert FlattenAll(items) == A + B;
    Distrib(n, P);
    assert FlattenAll(items') == FlattenAll(items'[..n]) + Flatten(items'[n]);
    MulBound(j0, n, P, r0);
    var q := j0 * P + r0;
    if j0 == n {
      assert items'[..n] == items[..n];
      UpdateRight(A, B, r0, v);
    } else {
      BlockUpdate(items[..n], items'[..n], s, j0, r0, v);
      assert items'[n] == items[n];
      UpdateLeft(A, B, q, v);
    }
  }

  lemma UpdateLeft(a: seq<real>, b: seq<real>, i: nat, v: real)
    requires i < |a|
    ensures (a + b)[i := v] == a[i := v] + b
  {
  }

  lemma UpdateRight(a: seq<real>, b: seq<real>, i: nat, v: real)
    requires i < |b|
    ensures (a + b)[|a| + i := v] == a + b[i := v]
  {
  }

  lemma DivUnique(q: nat, q0: nat, j: nat, j0: nat, r: nat, r0: nat, P: nat)
    requires P > 0 && r < P && r0 < P && q == j * P + r && q0 == j0 * P + r0 && j != j0
    ensures q != q0
  {
    if j < j0 {
      MulMono(j + 1, j0, P);
    } else {
      MulMono(j0 + 1, j, P);
    }
  }

  /** After setElement, the written leaf reads back and every other leaf
      position reads as before. */
  lemma SetAtOnlyThere(a: NArr, s: seq<nat>, p: seq<nat>, v: real, p': seq<nat>)
    requires HasShape(a, s) && InRange(p, s) && InRange(p', s) && |s| > 0
    ensures Writable(a, p)
    ensures Get(SetAt(a, p, v), p) == Some(Leaf(v))
    ensures p' != p ==> Get(SetAt(a, p, v), p') == Get(a, p')
  {
    SetAtHasShape(a, s, p, v);
    var b := SetAt(a, p, v);
    FlattenSetAt(a, s, p, v);
    FlattenAt(b, s, p);
    FlattenAt(b, s, p');
    FlattenAt(a, s, p');
    if p' != p {
      RowMajorInjective(p, p', s);
    }
  }

  /** Distinct in-range indices have distinct row-major offsets. */
  lemma {:induction false} RowMajorInjective(p: seq<nat>, p': seq<nat>, s: seq<nat>)
    requires InRange(p, s) && InRange(p', s) && p != p'
    ensures RowMajor(p, s) != RowMajor(p', s)
    decreases s
  {
    var s' := s[1..];
    assert InRange(p[1..], s') && InRange(p'[1..], s');
    RowMajorBound(p[1..], s');
    RowMajorBound(p'[1..], s');
    if p[0] == p'[0] {
      assert p == [p[0]] + p[1..] && p' == [p'[0]] + p'[1..];
      RowMajorInjective(p[1..], p'[1..], s');
    } else {
      DivUnique(RowMajor(p, s), RowMajor(p', s), p[0], p'[0],
                RowMajor(p[1..], s'), RowMajor(p'[1..], s'), Product(s'));
    }
  }

  // ---------------------------------------------------------------------------
  // Uniform arrays and leafwise maps

  /** Two arrays of one shape whose leaves all equal v are the same array. */
  lemma {:induction false} UniformUnique(a: NArr, b: NArr, s: seq<nat>, v: real)
    requires HasShape(a, s) && Uniform(a, v) && HasShape(b, s) && Uniform(b, v)
    ensures a == b
    decreases s
  {
    if s != [] {
      forall i | 0 <= i < |a.items| ensures a.items[i] == b.items[i] {
        UniformUnique(a.items[i], b.items[i], s[1..], v);
      }
      assert a.items == b.items;
    }
  }

  /** Every leaf of a uniform array is v. */
  lemma {:induction false} UniformFlatten(a: NArr, v: real)
    requires Uniform(a, v)
    ensures forall k :: 0 <= k < |Flatten(a)| ==> Flatten(a)[k] == v
    decreases a, 1
  {
    match a
    case Leaf(_) =>
    case Node(s) => UniformFlattenAll(s, v);
  }

  lemma {:induction false} UniformFlattenAll(s: seq<NArr>, v: real)
    requires forall i :: 0 <= i < |s| ==> Uniform(s[i], v)
    ensures forall k :: 0 <= k < |FlattenAll(s)| ==> FlattenAll(s)[k] == v
    decreases s, 0
  {
    if s != [] {
      UniformFlattenAll(s[..|s| - 1], v);
      UniformFlatten(s[|s| - 1], v);
    }
  }

  /** ZipWith keeps the shape and works leaf by leaf in row-major order. */
  lemma {:induction false} ZipWithFlatten(a: NArr, b: NArr, f: (real, real) -> real)
    requires Congruent(a, b)
    ensures Congruent(a, ZipWith(a, b, f))
    ensures |Flatten(a)| == |Flatten(b)| == |Flatten(ZipWith(a, b, f))|
    ensures forall k :: 0 <= k < |Flatten(a)| ==>
              Flatten(ZipWith(a, b, f))[k] == f(Flatten(a)[k], Flatten(b)[k])
    decreases a, 1
  {
    match a
    case Leaf(_) =>
    case Node(s) =>
      ZipWithFlattenAll(s, b.items, f);
      assert ZipWith(a, b, f).items == seq(|s|, i requires 0 <= i < |s| => ZipWith(s[i], b.items[i], f));
  }

  lemma {:induction false} ZipWithFlattenAll(s: seq<NArr>, t: seq<NArr>, f: (real, real) -> real)
    requires |s| == |t| && forall i :: 0 <= i < |s| ==> Congruent(s[i], t[i])
    ensures var z := seq(|s|, i requires 0 <= i < |s| => ZipWith(s[i], t[i], f));
            (forall i :: 0 <= i < |s| ==> Congruent(s[i], z[i])) &&
            |FlattenAll(s)| == |FlattenAll(t)| == |FlattenAll(z)| &&
            forall k :: 0 <= k < |FlattenAll(s)| ==>
              FlattenAll(z)[k] == f(FlattenAll(s)[k], FlattenAll(t)[k])
    decreases s, 0
  {
    var z := seq(|s|, i requires 0 <= i < |s| => ZipWith(s[i], t[i], f));
    forall i | 0 <= i < |s| ensures Congruent(s[i], z[i]) {
      ZipWithFlatten(s[i], t[i], f);
    }
    if s != [] {
      var n := |s| - 1;
      ZipWithFlattenAll(s[..n], t[..n], f);
      ZipWithFlatten(s[n], t[n], f);
      var z' := seq(n, i requires 0 <= i < n => ZipWith(s[..n][i], t[..n][i], f));
      assert z[..n] == z';
      assert z[n] == ZipWith(s[n], t[n], f);
      assert FlattenAll(z) == FlattenAll(z[..n]) + Flatten(z[n]);
      ZipAppend(FlattenAll(s[..n]), FlattenAll(t[..n]), FlattenAll(z[..n]),
                Flatten(s[n]), Flatten(t[n]), Flatten(z[n]), f);
    }
  }

  /** Entrywise relations survive concatenation. */
  lemma ZipAppend(p: seq<real>, q: seq<real>, r: seq<real>,
                  p': seq<real>, q': seq<real>, r': seq<real>, f: (real, real) -> real)
    requires |p| == |q| == |r| && |p'| == |q'| == |r'|
    requires forall k :: 0 <= k < |p| ==> r[k] == f(p[k], q[k])
    requires forall k :: 0 <= k < |p'| ==> r'[k] == f(p'[k], q'[k])
    ensures forall k :: 0 <= k < |p + p'| ==> (r + r')[k] == f((p + p')[k], (q + q')[k])
  {
    forall k | 0 <= k < |p + p'|
      ensures (r + r')[k] == f((p + p')[k], (q + q')[k])
    {
      if k >= |p| {
        assert (r + r')[k] == r'[k - |p|];
      }
    }
  }

  /** MapLeaves keeps the shape and works leaf by leaf in row-major order. */
  lemma {:induction false} MapLeavesFlatten(a: NArr, f: real -> real)
    ensures Congruent(a, MapLeaves(a, f))
    ensures |Flatten(MapLeaves(a, f))| == |Flatten(a)|
    ensures forall k :: 0 <= k < |Flatten(a)| ==> Flatten(MapLeaves(a, f))[k] == f(Flatten(a)[k])
    decreases a, 1
  {
    match a
    case Leaf(_) =>
    case Node(s) => MapLeavesFlattenAll(s, f);
  }

  lemma {:induction false} MapLeavesFlattenAll(s: seq<NArr>, f: real -> real)
    ensures var z := seq(|s|, i requires 0 <= i < |s| => MapLeaves(s[i], f));
            (forall i :: 0 <= i < |s| ==> Congruent(s[i], z[i])) &&
            |FlattenAll(z)| == |FlattenAll(s)| &&
            forall k :: 0 <= k < |FlattenAll(s)| ==> FlattenAll(z)[k] == f(FlattenAll(s)[k])
    decreases s, 0
  {
    var z := seq(|s|, i requires 0 <= i < |s| => MapLeaves(s[i], f));
    forall i | 0 <= i < |s| ensures Congruent(s[i], z[i]) {
      MapLeavesFlatten(s[i], f);
    }
    if s != [] {
      var n := |s| - 1;
      MapLeavesFlattenAll(s[..n], f);
      MapLeavesFlatten(s[n], f);
      assert z[..n] == seq(n, i requires 0 <= i < n => MapLeaves(s[..n][i], f));
    }
  }

  /** Congruence is an equivalence on shapes. */
  lemma {:induction false} CongruentSymmetric(a: NArr, b: NArr)
    requires Congruent(a, b)
    ensures Congruent(b, a)
    decreases a
  {
    match a
    case Leaf(_) =>
    case Node(s) =>
      forall i | 0 <= i < |s| ensures Congruent(b.items[i], s[i]) {
        CongruentSymmetric(s[i], b.items[i]);
      }
  }

  lemma {:induction false} CongruentTransitive(a: NArr, b: NArr, c: NArr)
    requires Congruent(a, b) && Congruent(b, c)
    ensures Congruent(a, c)
    decreases a
  {
    match a
    case Leaf(_) =>
    case Node(s) =>
      forall i | 0 <= i < |s| ensures Congruent(s[i], c.items[i]) {
        CongruentTransitive(s[i], b.items[i], c.items[i]);
      }
  }

  lemma {:induction false} CongruentReflexive(a: NArr)
    ensures Congruent(a, a)
    decreases a
  {
    match a
    case Leaf(_) =>
    case Node(s) =>
      forall i | 0 <= i < |s| ensures Congruent(s[i], s[i]) {
        CongruentReflexive(s[i]);
      }
  }

  // ---------------------------------------------------------------------------
  // Filled arrays

  /** The array of shape `shape` whose every leaf is `v` (a bare `v` for the
      empty shape); each slot is its own sub-array. */
  function Filled(shape: seq<nat>, v: real): (r: NArr)
    ensures HasShape(r, shape) && Uniform(r, v)
    decreases |shape|
  {
    if shape == [] then Leaf(v)
    else Node(seq(shape[0], _ => Filled(shape[1..], v)))
  }

  /** A filled array is determined by its shape and fill value. */
  lemma FilledUnique(a: NArr, shape: seq<nat>, v: real)
    requires HasShape(a, shape) && Uniform(a, v)
    ensures a == Filled(shape, v)
  {
    UniformUnique(a, Filled(shape, v), shape, v);
  }

  /** Every flattened entry of a filled array is the fill value, and there are
      Product(shape) of them. */
  lemma FilledFlatten(shape: seq<nat>, v: real)
    ensures |Flatten(Filled(shape, v))| == Product(shape)
    ensures Flatten(Filled(shape, v)) == seq(Product(shape), _ => v)
  {
    var f := Filled(shape, v);
    FlattenLength(f, shape);
    UniformFlatten(f, v);
  }

  // ---------------------------------------------------------------------------
  // Matrices

  /** Column count read from the first row, as `array[0].length` does. */
  function Cols(a: NArr): nat
  {
    if a.Node? && |a.items| > 0 && a.items[0].Node? then |a.items[0].items| else 0
  }

  /** A rectangular two-dimensional array (possibly with no rows). */
  predicate IsMatrix(a: NArr)
  {
    a.Node? && HasShape(a, [|a.items|, Cols(a)])
  }

  /** The r-by-c matrix of leaves a[i][j]. */
  lemma MatrixEntries(a: NArr)
    requires IsMatrix(a)
    ensures forall i :: 0 <= i < |a.items| ==>
              a.items[i].Node? && |a.items[i].items| == Cols(a) &&
              forall j :: 0 <= j < Cols(a) ==> a.items[i].items[j].Leaf?
  {
    forall i | 0 <= i < |a.items|
      ensures a.items[i].Node? && |a.items[i].items| == Cols(a)
    {
      assert HasShape(a.items[i], [Cols(a)]);
    }
    forall i, j | 0 <= i < |a.items| && 0 <= j < Cols(a)
      ensures a.items[i].items[j].Leaf?
    {
      assert HasShape(a.items[i], [Cols(a)]);
      assert HasShape(a.items[i].items[j], []);
    }
  }

  /** Leaf (i, j) of a matrix. */
  function At(a: NArr, i: nat, j: nat): real
    requires IsMatrix(a) && i < |a.items| && j < Cols(a)
  {
    MatrixEntries(a);
    a.items[i].items[j].x
  }

  /** The matrix with `rows` rows and `cols` columns whose entry (i, j) is f(i, j). */
  function Tabulate(rows: nat, cols: nat, f: (nat, nat) -> real): (r: NArr)
    ensures HasShape(r, [rows, cols]) && IsMatrix(r) && |r.items| == rows
    ensures rows > 0 ==> Cols(r) == cols
    ensures forall i, j :: 0 <= i < rows && 0 <= j < cols ==> At(r, i, j) == f(i, j)
  {
    var r := Node(seq(rows, i requires 0 <= i < rows =>
                 Node(seq(cols, j requires 0 <= j < cols => Leaf(f(i, j))))));
    assert forall i :: 0 <= i < rows ==> HasShape(r.items[i], [cols]);
    assert rows > 0 ==> Cols(r) == cols;
    assert rows == 0 ==> |r.items| == 0;
    r
  }

  /** The transpose of a matrix with at least one row: entry (j, i) is a[i][j]. */
  function Transposed(a: NArr): (t: NArr)
    requires IsMatrix(a) && |a.items| > 0
    ensures IsMatrix(t) && HasShape(t, [Cols(a), |a.items|]) && |t.items| == Cols(a)
    ensures Cols(a) > 0 ==> Cols(t) == |a.items|
    ensures forall i, j :: 0 <= i < |a.items| && 0 <= j < Cols(a) ==>
              At(t, j, i) == At(a, i, j)
  {
    MatrixEntries(a);
    var t := Tabulate(Cols(a), |a.items|, (j: nat, i: nat) =>
               if i < |a.items| && j < Cols(a) then At(a, i, j) else 0.0);
    t
  }

  /** Two matrices of the same dimensions with the same entries are equal. */
  lemma {:induction false} MatrixExt(a: NArr, b: NArr)
    requires IsMatrix(a) && IsMatrix(b) && |a.items| == |b.items| && Cols(a) == Cols(b)
    requires forall i, j :: 0 <= i < |a.items| && 0 <= j < Cols(a) ==> At(a, i, j) == At(b, i, j)
    ensures a == b
  {
    MatrixEntries(a);
    MatrixEntries(b);
    forall i | 0 <= i < |a.items| ensures a.items[i] == b.items[i] {
      forall j | 0 <= j < Cols(a) ensures a.items[i].items[j] == b.items[i].items[j] {
        assert At(a, i, j) == At(b, i, j);
      }
    }
  }

  /** Transposing twice gives back a matrix with at least one row and one column. */
  lemma TransposeTwice(a: NArr)
    requires IsMatrix(a) && |a.items| > 0 && Cols(a) > 0
    ensures Transposed(Transposed(a)) == a
  {
    var t := Transposed(a);
    var tt := Transposed(t);
    forall i, j | 0 <= i < |a.items| && 0 <= j < Cols(a) ensures At(tt, i, j) == At(a, i, j) {
      assert At(tt, i, j) == At(t, j, i);
    }
    MatrixExt(tt, a);
  }
}
