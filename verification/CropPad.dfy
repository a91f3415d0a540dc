/** Prefix crop and zero pad of row-major arrays of any rank, and rebuilt position ids (`vector_retarget.py`). */
module CropPad {
  import opened Tensors

  /** Entries in a row of an array of this shape. */
  function Stride(shape: Shape): nat
    requires shape != []
  {
    Size(shape[1..])
  }

  lemma MultiplyOrder(a: nat, b: nat, c: nat)
    requires a <= b
    ensures a * c <= b * c
  {
  }

  lemma RowFits(n: nat, stride: nat, i: nat)
    requires i < n
    ensures 0 <= i * stride <= (i + 1) * stride <= n * stride
    ensures (i + 1) * stride - i * stride == stride
  {
    MultiplyOrder(0, i, stride);
    MultiplyOrder(i + 1, n, stride);
  }

  /** Row i of an array: the entries whose first index is i. */
  function Row<T>(shape: Shape, data: seq<T>, i: nat): (row: seq<T>)
    requires shape != [] && |data| == Size(shape) && i < shape[0]
    ensures |row| == Stride(shape)
  {
    RowFits(shape[0], Stride(shape), i);
    data[i * Stride(shape)..(i + 1) * Stride(shape)]
  }

  predicate InBounds(shape: Shape, index: seq<nat>) {
    |index| == |shape| && forall k :: 0 <= k < |shape| ==> index[k] < shape[k]
  }

  /** The entry at a multi-index, row by row. */
  function At<T>(shape: Shape, data: seq<T>, index: seq<nat>): T
    requires |data| == Size(shape) && InBounds(shape, index)
  {
    if shape == [] then data[0] else At(shape[1..], Row(shape, data, index[0]), index[1..])
  }

  function Offset(shape: Shape, index: seq<nat>): nat
    requires |shape| == |index|
  {
    if shape == [] then 0 else index[0] * Stride(shape) + Offset(shape[1..], index[1..])
  }

  /** Row-major: the last index varies fastest. */
  lemma {:induction false} AtIsOffset<T>(shape: Shape, data: seq<T>, index: seq<nat>)
    requires |data| == Size(shape) && InBounds(shape, index)
    ensures Offset(shape, index) < |data| && At(shape, data, index) == data[Offset(shape, index)]
  {
    if shape != [] {
      var stride := Stride(shape);
      RowFits(shape[0], stride, index[0]);
      AtIsOffset(shape[1..], Row(shape, data, index[0]), index[1..]);
    }
  }

  /** n copies of one value. */
  function Fill<T>(n: nat, x: T): (s: seq<T>)
    ensures |s| == n && forall i :: 0 <= i < n ==> s[i] == x
  {
    seq(n, i => x)
  }

  // -------------------------------------------------------------- crop, pad

  /** `destination = zeros(target); destination[overlap] = value[overlap]`. */
  function Cropped<T>(source: Shape, target: Shape, data: seq<T>, zero: T): (r: seq<T>)
    requires |source| == |target| && |data| == Size(source)
    ensures |r| == Size(target)
    decreases |source|, 1, 0
  {
    if source == [] then data else CroppedRows(source, target, data, zero, target[0])
  }

  /** The first n rows of the result: a cropped source row where there is one, zeros elsewhere. */
  function CroppedRows<T>(source: Shape, target: Shape, data: seq<T>, zero: T, n: nat): (r: seq<T>)
    requires |source| == |target| > 0 && |data| == Size(source)
    ensures |r| == n * Stride(target)
    decreases |source|, 0, n
  {
    if n == 0 then []
    else
      var rest := CroppedRows(source, target, data, zero, n - 1);
      var row :=
        if n - 1 < source[0] then Cropped(source[1..], target[1..], Row(source, data, n - 1), zero)
        else Fill(Stride(target), zero);
      assert n * Stride(target) == (n - 1) * Stride(target) + Stride(target);
      rest + row
  }

  /** Row i of the result. */
  function RowOf<T>(source: Shape, target: Shape, data: seq<T>, zero: T, i: nat): (row: seq<T>)
    requires |source| == |target| > 0 && |data| == Size(source)
    ensures |row| == Stride(target)
  {
    if i < source[0] then Cropped(source[1..], target[1..], Row(source, data, i), zero) else Fill(Stride(target), zero)
  }

  lemma {:induction false} RowsAre<T>(source: Shape, target: Shape, data: seq<T>, zero: T, n: nat, i: nat)
    requires |source| == |target| > 0 && |data| == Size(source) && i < n
    ensures 0 <= i * Stride(target) <= (i + 1) * Stride(target) <= n * Stride(target)
    ensures CroppedRows(source, target, data, zero, n)[i * Stride(target)..(i + 1) * Stride(target)]
            == RowOf(source, target, data, zero, i)
    decreases n
  {
    var stride := Stride(target);
    RowFits(n, stride, i);
    var all := CroppedRows(source, target, data, zero, n);
    var rest := CroppedRows(source, target, data, zero, n - 1);
    assert all == rest + RowOf(source, target, data, zero, n - 1);
    if i < n - 1 {
      RowsAre(source, target, data, zero, n - 1, i);
      assert all[i * stride..(i + 1) * stride] == rest[i * stride..(i + 1) * stride];
    } else {
      assert |rest| == i * stride;
    }
  }

  lemma CroppedRow<T>(source: Shape, target: Shape, data: seq<T>, zero: T, i: nat)
    requires |source| == |target| > 0 && |data| == Size(source) && i < target[0]
    ensures Row(target, Cropped(source, target, data, zero), i) == RowOf(source, target, data, zero, i)
  {
    RowsAre(source, target, data, zero, target[0], i);
  }

  lemma {:induction false} AtFill<T>(shape: Shape, x: T, index: seq<nat>)
    requires InBounds(shape, index)
    ensures At(shape, Fill(Size(shape), x), index) == x
  {
    AtIsOffset(shape, Fill(Size(shape), x), index);
  }

  /** The source value at every index inside the source, zero everywhere else. */
  lemma {:induction false} CroppedAt<T>(source: Shape, target: Shape, data: seq<T>, zero: T, index: seq<nat>)
    requires |source| == |target| && |data| == Size(source) && InBounds(target, index)
    ensures At(target, Cropped(source, target, data, zero), index)
            == if InBounds(source, index) then At(source, data, index) else zero
  {
    if source != [] {
      var i := index[0];
      CroppedRow(source, target, data, zero, i);
      if i < source[0] {
        CroppedAt(source[1..], target[1..], Row(source, data, i), zero, index[1..]);
        assert InBounds(source, index) <==> InBounds(source[1..], index[1..]);
      } else {
        AtFill(target[1..], zero, index[1..]);
      }
    }
  }

  /** Arrays with the same rows are the same. */
  lemma {:induction false} SameRows<T>(shape: Shape, a: seq<T>, b: seq<T>)
    requires shape != [] && |a| == |b| == Size(shape)
    requires forall i: nat :: i < shape[0] ==> Row(shape, a, i) == Row(shape, b, i)
    ensures a == b
  {
    var stride := Stride(shape);
    forall k | 0 <= k < |a| ensures a[k] == b[k] {
      PositiveFactor(shape[0], stride, k);
      var i, j := k / stride, k % stride;
      DivisionFits(k, stride, shape[0]);
      RowFits(shape[0], stride, i);
      assert Row(shape, a, i)[j] == a[i * stride + j] && Row(shape, b, i)[j] == b[i * stride + j];
    }
  }

  lemma PositiveFactor(n: nat, stride: nat, k: nat)
    requires k < n * stride
    ensures stride > 0
  {
  }

  lemma DivisionFits(k: nat, stride: nat, n: nat)
    requires stride > 0 && k < n * stride
    ensures k / stride < n && k == (k / stride) * stride + k % stride
  {
    if k / stride >= n {
      assert (k / stride) * stride >= n * stride by { MultiplyOrder(n, k / stride, stride); }
    }
  }

  lemma FillRow<T>(shape: Shape, x: T, i: nat)
    requires shape != [] && i < shape[0]
    ensures Row(shape, Fill(Size(shape), x), i) == Fill(Stride(shape), x)
  {
    var row, stride := Row(shape, Fill(Size(shape), x), i), Stride(shape);
    RowFits(shape[0], stride, i);
    forall j | 0 <= j < stride ensures row[j] == x {
      assert row[j] == Fill(Size(shape), x)[i * stride + j];
    }
  }

  /** Zeros stay zeros. */
  lemma {:induction false} CroppedZeros<T>(source: Shape, target: Shape, zero: T)
    requires |source| == |target|
    ensures Cropped(source, target, Fill(Size(source), zero), zero) == Fill(Size(target), zero)
    decreases |source|
  {
    if source != [] {
      var zeros := Fill(Size(source), zero);
      forall i: nat | i < target[0]
        ensures Row(target, Cropped(source, target, zeros, zero), i) == Row(target, Fill(Size(target), zero), i)
      {
        CroppedRow(source, target, zeros, zero, i);
        FillRow(target, zero, i);
        if i < source[0] {
          FillRow(source, zero, i);
          CroppedZeros(source[1..], target[1..], zero);
        }
      }
      SameRows(target, Cropped(source, target, zeros, zero), Fill(Size(target), zero));
    }
  }

  /** On the way to the target nothing the target keeps of the source is lost. */
  predicate Passes(source: Shape, middle: Shape, target: Shape) {
    |source| == |middle| == |target| &&
    forall k :: 0 <= k < |source| ==> middle[k] >= source[k] || middle[k] >= target[k]
  }

  /** Going through a middle shape is going straight to the target. */
  lemma {:induction false} CropsCompose<T>(source: Shape, middle: Shape, target: Shape, data: seq<T>, zero: T)
    requires Passes(source, middle, target) && |data| == Size(source)
    ensures Cropped(middle, target, Cropped(source, middle, data, zero), zero) == Cropped(source, target, data, zero)
    decreases |source|
  {
    if source != [] {
      var there := Cropped(source, middle, data, zero);
      forall i: nat | i < target[0]
        ensures Row(target, Cropped(middle, target, there, zero), i) == Row(target, Cropped(source, target, data, zero), i)
      {
        CroppedRow(middle, target, there, zero, i);
        CroppedRow(source, target, data, zero, i);
        RowPasses(source, middle, target, data, zero, i);
      }
      SameRows(target, Cropped(middle, target, there, zero), Cropped(source, target, data, zero));
    }
  }

  lemma RowPasses<T>(source: Shape, middle: Shape, target: Shape, data: seq<T>, zero: T, i: nat)
    requires Passes(source, middle, target) && source != [] && |data| == Size(source) && i < target[0]
    ensures RowOf(middle, target, Cropped(source, middle, data, zero), zero, i) == RowOf(source, target, data, zero, i)
    decreases |source|, 0
  {
    assert Passes(source[1..], middle[1..], target[1..]);
    if i < middle[0] {
      CroppedRow(source, middle, data, zero, i);
      if i < source[0] {
        CropsCompose(source[1..], middle[1..], target[1..], Row(source, data, i), zero);
      } else {
        CroppedZeros(middle[1..], target[1..], zero);
      }
    }
  }

  // ------------------------------------------------------------ position ids

  function Positions(shape: Shape, start: int): (r: seq<int>)
    requires shape != []
    ensures |r| == Size(shape)
    decreases |shape|, 1, 0
  {
    if |shape| == 1 then
      assert Size(shape) == shape[0] * Size(shape[1..]) == shape[0];
      seq(shape[0], i => start + i)
    else PositionRows(shape, start, shape[0])
  }

  function PositionRows(shape: Shape, start: int, n: nat): (r: seq<int>)
    requires |shape| > 1
    ensures |r| == n * Stride(shape)
    decreases |shape|, 0, n
  {
    if n == 0 then []
    else
      assert n * Stride(shape) == (n - 1) * Stride(shape) + Stride(shape);
      PositionRows(shape, start, n - 1) + Positions(shape[1..], start)
  }

  lemma {:induction false} PositionRowIs(shape: Shape, start: int, n: nat, i: nat)
    requires |shape| > 1 && i < n
    ensures 0 <= i * Stride(shape) <= (i + 1) * Stride(shape) <= n * Stride(shape)
    ensures PositionRows(shape, start, n)[i * Stride(shape)..(i + 1) * Stride(shape)] == Positions(shape[1..], start)
    decreases n
  {
    var stride := Stride(shape);
    RowFits(n, stride, i);
    var all, rest := PositionRows(shape, start, n), PositionRows(shape, start, n - 1);
    assert all == rest + Positions(shape[1..], start);
    if i < n - 1 {
      PositionRowIs(shape, start, n - 1, i);
      assert all[i * stride..(i + 1) * stride] == rest[i * stride..(i + 1) * stride];
    } else {
      assert |rest| == i * stride;
    }
  }

  /** Along the last axis positions count up from the first; every other axis repeats them. */
  lemma {:induction false} PositionAt(shape: Shape, start: int, index: seq<nat>)
    requires shape != [] && InBounds(shape, index)
    ensures At(shape, Positions(shape, start), index) == start + index[|index| - 1]
    decreases |shape|
  {
    if |shape| == 1 {
      AtIsOffset(shape, Positions(shape, start), index);
      assert Offset(shape, index) == index[0] by { assert Stride(shape) == 1; }
    } else {
      PositionRowIs(shape, start, shape[0], index[0]);
      PositionAt(shape[1..], start, index[1..]);
    }
  }

  lemma {:induction false} PositionsStayInRange(shape: Shape, start: int)
    requires shape != []
    ensures forall p :: p in Positions(shape, start) ==> start <= p < start + shape[|shape| - 1]
    decreases |shape|, 1, 0
  {
    if |shape| > 1 { PositionRowsStayInRange(shape, start, shape[0]); }
  }

  lemma {:induction false} PositionRowsStayInRange(shape: Shape, start: int, n: nat)
    requires |shape| > 1
    ensures forall p :: p in PositionRows(shape, start, n) ==> start <= p < start + shape[|shape| - 1]
    decreases |shape|, 0, n
  {
    if n > 0 {
      PositionRowsStayInRange(shape, start, n - 1);
      PositionsStayInRange(shape[1..], start);
    }
  }

  /** The first entry is the first position. */
  lemma {:induction false} FirstPositionIsStart(shape: Shape, start: int)
    requires shape != [] && forall k :: 0 <= k < |shape| ==> shape[k] > 0
    ensures |Positions(shape, start)| > 0 && Positions(shape, start)[0] == start
    decreases |shape|
  {
    var zero := seq(|shape|, i => 0);
    AtIsOffset(shape, Positions(shape, start), zero);
    PositionAt(shape, start, zero);
    OffsetOfZero(shape);
  }

  lemma {:induction false} OffsetOfZero(shape: Shape)
    ensures Offset(shape, seq(|shape|, i => 0)) == 0
  {
    if shape != [] {
      OffsetOfZero(shape[1..]);
      assert seq(|shape|, i => 0)[1..] == seq(|shape[1..]|, i => 0);
    }
  }
}
