/**
 The weighted-mean aggregator of `vector_mean::mean`: the chunk embeddings are
 flattened row by row, the buffer is reshaped into an `n x d` matrix whose `d`
 is the length of the first embedding, and the weighted mean is taken down
 the rows, giving `r[j] == (Σ_i w[i] * m[i][j]) / (Σ_i w[i])`.

 Components and weights are reals; the rounding of `f32` is not modelled.
 Every way the source can panic is an explicit outcome.
 */
module VectorMean {
  import opened Sums

  type Vector = seq<real>

  /** Why `mean` panics. The first three are the source's own; the last is
      raised only by the corrected aggregator, `CheckedMean`. */
  datatype MeanFailure =
    | IndexOutOfBounds   // `embeddings[0]` on an empty list
    | CreateArrayFailed  // `expect("Error creating ndarray")`: the buffer does not have n*d entries
    | ComputeMeanFailed  // `expect("Error computing mean")`: an empty matrix, or not one weight per row
    | DimensionMismatch  // the rows do not all have the same length

  /** What `mean` does: return a vector, return a vector whose entries are
      not finite (the weights add up to zero, so every entry is a division
      by zero), or panic. */
  datatype MeanOutcome =
    | Averaged(v: Vector)
    | NonFinite
    | Panicked(reason: MeanFailure)

  /** Every row has exactly `d` entries. */
  predicate Uniform(rows: seq<Vector>, d: nat)
  {
    forall i :: 0 <= i < |rows| ==> |rows[i]| == d
  }

  /** The total number of entries in all rows. */
  function TotalLength(rows: seq<Vector>): nat
  {
    if |rows| == 0 then 0 else |rows[0]| + TotalLength(rows[1..])
  }

  /** `into_iter().flatten().collect()`: the rows, one after the other. */
  function Flatten(rows: seq<Vector>): (flat: Vector)
    ensures |flat| == TotalLength(rows)
  {
    if |rows| == 0 then [] else rows[0] + Flatten(rows[1..])
  }

  /** (k+1)*d == d + k*d, kept out of the larger proofs. */
  lemma MulSucc(k: nat, d: nat)
    ensures (k + 1) * d == d + k * d
  {
  }

  lemma {:induction false} TotalLengthUniform(rows: seq<Vector>, d: nat)
    requires Uniform(rows, d)
    ensures TotalLength(rows) == |rows| * d
  {
    if |rows| > 0 {
      TotalLengthUniform(rows[1..], d);
      MulSucc(|rows| - 1, d);
    }
  }

  /** `Array2::from_shape_vec((n, d), flat)` in row-major order: row `i` is
      the `i`-th block of `d` entries of the buffer. */
  function Reshape(flat: Vector, n: nat, d: nat): (m: seq<Vector>)
    requires |flat| == n * d
    ensures |m| == n && Uniform(m, d)
    decreases n
  {
    if n == 0 then []
    else
      MulSucc(n - 1, d);
      [flat[..d]] + Reshape(flat[d..], n - 1, d)
  }

  /** The reshape's index law: entry `(i, j)` of the matrix is entry
      `i*d + j` of the buffer. */
  lemma {:induction false} ReshapeIndex(flat: Vector, n: nat, d: nat, i: nat, j: nat)
    requires |flat| == n * d
    requires i < n && j < d
    ensures i * d + j < |flat|
    ensures Reshape(flat, n, d)[i][j] == flat[i * d + j]
    decreases n, 1
  {
    MulSucc(n - 1, d);
    if i == 0 {
      MulSucc(0, d);
      assert Reshape(flat, n, d)[0] == flat[..d];
    } else {
      ReshapeIndexStep(flat, n, d, i, j);
    }
  }

  /** The inductive step of `ReshapeIndex`: row `i` of the matrix is row
      `i - 1` of the reshaped rest of the buffer. */
  lemma {:induction false} ReshapeIndexStep(flat: Vector, n: nat, d: nat, i: nat, j: nat)
    requires |flat| == n * d
    requires 0 < i < n && j < d
    ensures i * d + j < |flat|
    ensures Reshape(flat, n, d)[i][j] == flat[i * d + j]
    decreases n, 0
  {
    MulSucc(n - 1, d);
    var tail := flat[d..];
    ReshapeIndex(tail, n - 1, d, i - 1, j);
    var offset := (i - 1) * d + j;
    MulSucc(i - 1, d);
    assert i * d + j == d + offset;
    assert Reshape(flat, n, d)[i] == Reshape(tail, n - 1, d)[i - 1];
    assert tail[offset] == flat[d + offset];
  }

  /** Reshaping a flattened uniform matrix gives back its rows. */
  lemma {:induction false} ReshapeFlatten(rows: seq<Vector>, d: nat)
    requires Uniform(rows, d)
    ensures |Flatten(rows)| == |rows| * d
    ensures Reshape(Flatten(rows), |rows|, d) == rows
  {
    TotalLengthUniform(rows, d);
    if |rows| > 0 {
      ReshapeFlatten(rows[1..], d);
      var flat := Flatten(rows);
      assert flat[..d] == rows[0];
      assert flat[d..] == Flatten(rows[1..]);
      assert rows == [rows[0]] + rows[1..];
    }
  }

  /** Flattening a reshaped buffer gives back the buffer. */
  lemma {:induction false} FlattenReshape(flat: Vector, n: nat, d: nat)
    requires |flat| == n * d
    ensures Flatten(Reshape(flat, n, d)) == flat
    decreases n
  {
    if n > 0 {
      MulSucc(n - 1, d);
      FlattenReshape(flat[d..], n - 1, d);
      var m := Reshape(flat, n, d);
      assert m[1..] == Reshape(flat[d..], n - 1, d);
      assert flat == flat[..d] + flat[d..];
    }
  }

  /** Flattening keeps row-major order: for rows of equal length `d`, the
      buffer has `n*d` entries and entry `i*d + j` is `rows[i][j]`. */
  lemma FlattenIndex(rows: seq<Vector>, d: nat, i: nat, j: nat)
    requires Uniform(rows, d)
    requires i < |rows| && j < d
    ensures |Flatten(rows)| == |rows| * d
    ensures i * d + j < |Flatten(rows)| && Flatten(rows)[i * d + j] == rows[i][j]
  {
    ReshapeFlatten(rows, d);
    ReshapeIndex(Flatten(rows), |rows|, d, i, j);
  }

  /** Σ_i w[i] * rows[i][j], the weighted sum of column `j`. */
  function ColumnSum(rows: seq<Vector>, w: seq<real>, j: nat): real
    requires |w| == |rows|
    requires forall i :: 0 <= i < |rows| ==> j < |rows[i]|
  {
    if |rows| == 0 then 0.0 else w[0] * rows[0][j] + ColumnSum(rows[1..], w[1..], j)
  }

  /** `weighted_sum_axis(Axis(0), w)`: the weighted rows added up, one
      accumulator entry per column. */
  function WeightedSum(rows: seq<Vector>, w: seq<real>, d: nat): (s: Vector)
    requires |w| == |rows| && Uniform(rows, d)
    ensures |s| == d
    ensures forall j :: 0 <= j < d ==> s[j] == ColumnSum(rows, w, j)
  {
    if |rows| == 0 then seq(d, _ => 0.0)
    else
      var rest := WeightedSum(rows[1..], w[1..], d);
      seq(d, j requires 0 <= j < d => w[0] * rows[0][j] + rest[j])
  }

  /** `weighted_mean_axis(Axis(0), w)`: the weighted sum divided by the
      total weight, column by column, with no column moved. */
  function WeightedMean(rows: seq<Vector>, w: seq<real>, d: nat): (r: Vector)
    requires |w| == |rows| && Uniform(rows, d)
    requires Sum(w) != 0.0
    ensures |r| == d
    ensures forall j :: 0 <= j < d ==> r[j] == ColumnSum(rows, w, j) / Sum(w)
  {
    var s := WeightedSum(rows, w, d);
    seq(d, j requires 0 <= j < d => s[j] / Sum(w))
  }

  /** `mean(embeddings, weights)` as written: `d` is the first row's length,
      only the total length of the buffer is checked against `n*d`, and the
      mean is taken over the reshaped matrix. */
  function Mean(embeddings: seq<Vector>, weights: seq<real>): (r: MeanOutcome)
    ensures r.Averaged? ==>
      && |embeddings| > 0
      && |weights| == |embeddings|
      && Sum(weights) != 0.0
      && |r.v| == |embeddings[0]| > 0
  {
    if |embeddings| == 0 then Panicked(IndexOutOfBounds)
    else
      var n := |embeddings|;
      var d := |embeddings[0]|;
      var flat := Flatten(embeddings);
      if |flat| != n * d then Panicked(CreateArrayFailed)
      else
        var matrix := Reshape(flat, n, d);
        if n * d == 0 || |weights| != n then Panicked(ComputeMeanFailed)
        else if Sum(weights) == 0.0 then NonFinite
        else Averaged(WeightedMean(matrix, weights, d))
  }

  /** The reshape is rejected whenever the rows do not hold `n*d` entries in
      all, `d` being the first row's length. */
  lemma MeanRejectsShape(embeddings: seq<Vector>, weights: seq<real>)
    requires |embeddings| > 0
    requires TotalLength(embeddings) != |embeddings| * |embeddings[0]|
    ensures Mean(embeddings, weights) == Panicked(CreateArrayFailed)
  {
  }

  /** Two vectors of different lengths are never averaged. */
  lemma MeanRejectsTwoLengths(a: Vector, b: Vector, weights: seq<real>)
    requires |a| != |b|
    ensures Mean([a, b], weights) == Panicked(CreateArrayFailed)
  {
    var e := [a, b];
    assert e[1..] == [b] && e[1..][1..] == [];
    assert TotalLength(e[1..]) == |b| + TotalLength([]);
    assert TotalLength(e) == |a| + |b| != 2 * |a|;
  }

  /** On rows of one common length the outcome of `mean` is decided by the
      dimension, the number of weights and their total; when it returns a
      vector, entry `j` is the weighted mean of column `j` of the original
      rows. */
  lemma MeanOfUniformRows(embeddings: seq<Vector>, weights: seq<real>)
    requires |embeddings| > 0 && Uniform(embeddings, |embeddings[0]|)
    ensures |embeddings[0]| == 0 || |weights| != |embeddings| ==>
      Mean(embeddings, weights) == Panicked(ComputeMeanFailed)
    ensures |embeddings[0]| > 0 && |weights| == |embeddings| && Sum(weights) == 0.0 ==>
      Mean(embeddings, weights) == NonFinite
    ensures |embeddings[0]| > 0 && |weights| == |embeddings| && Sum(weights) != 0.0 ==>
      && Mean(embeddings, weights).Averaged?
      && |Mean(embeddings, weights).v| == |embeddings[0]|
      && forall j :: 0 <= j < |embeddings[0]| ==>
           Mean(embeddings, weights).v[j] == ColumnSum(embeddings, weights, j) / Sum(weights)
  {
    var n, d := |embeddings|, |embeddings[0]|;
    ReshapeFlatten(embeddings, d);
    if d > 0 && |weights| == n && Sum(weights) != 0.0 {
      MeanIsWeightedMean(embeddings, weights);
    }
  }

  /** On rows of one length `d > 0`, with one weight per row and a non-zero
      total, `mean` returns the weighted mean of the original rows. */
  lemma MeanIsWeightedMean(embeddings: seq<Vector>, weights: seq<real>)
    requires |embeddings| > 0 && |embeddings[0]| > 0 && Uniform(embeddings, |embeddings[0]|)
    requires |weights| == |embeddings| && Sum(weights) != 0.0
    ensures Mean(embeddings, weights) == Averaged(WeightedMean(embeddings, weights, |embeddings[0]|))
  {
    ReshapeFlatten(embeddings, |embeddings[0]|);
  }

  /** One embedding with a non-zero weight comes back unchanged. */
  lemma MeanOfOne(v: Vector, w: real)
    requires |v| > 0 && w != 0.0
    ensures Mean([v], [w]) == Averaged(v)
  {
    MeanOfUniformRows([v], [w]);
    assert Sum([w]) == w + Sum([]);
    var r := Mean([v], [w]).v;
    forall j | 0 <= j < |v|
      ensures r[j] == v[j]
    {
      assert ColumnSum([v], [w], j) == w * v[j] + ColumnSum([], [], j);
    }
  }

  /** Σ_i rows[i][j], the plain sum of column `j`. */
  function ColumnTotal(rows: seq<Vector>, j: nat): real
    requires forall i :: 0 <= i < |rows| ==> j < |rows[i]|
  {
    if |rows| == 0 then 0.0 else rows[0][j] + ColumnTotal(rows[1..], j)
  }

  /** `n` weights, all equal to `c`. */
  function EqualWeights(n: nat, c: real): seq<real>
  {
    seq(n, _ => c)
  }

  lemma {:induction false} ColumnSumOfEqualWeights(rows: seq<Vector>, c: real, j: nat)
    requires forall i :: 0 <= i < |rows| ==> j < |rows[i]|
    ensures ColumnSum(rows, EqualWeights(|rows|, c), j) == c * ColumnTotal(rows, j)
  {
    if |rows| > 0 {
      ColumnSumOfEqualWeights(rows[1..], c, j);
      assert EqualWeights(|rows|, c)[1..] == EqualWeights(|rows| - 1, c);
    }
  }

  lemma {:induction false} SumOfEqualWeights(n: nat, c: real)
    ensures Sum(EqualWeights(n, c)) == n as real * c
  {
    if n > 0 {
      SumOfEqualWeights(n - 1, c);
      assert EqualWeights(n, c)[1..] == EqualWeights(n - 1, c);
    }
  }

  /** (c*t) / (n*c) == t/n, for the sums `x == c*t` and `s == n*c`. */
  lemma CancelCommonFactor(x: real, s: real, t: real, n: real, c: real)
    requires n != 0.0 && c != 0.0
    requires x == c * t && s == n * c
    ensures s != 0.0 && x / s == t / n
  {
    assert (t / n) * s == x;
  }

  /** The plain arithmetic mean of the rows, column by column. */
  function PlainMean(rows: seq<Vector>, d: nat): (r: Vector)
    requires |rows| > 0 && Uniform(rows, d)
  {
    seq(d, j requires 0 <= j < d => ColumnTotal(rows, j) / |rows| as real)
  }

  /** Equal non-zero weights give the plain arithmetic mean of the rows. */
  lemma MeanOfEqualWeights(embeddings: seq<Vector>, c: real)
    requires |embeddings| > 0 && |embeddings[0]| > 0
    requires Uniform(embeddings, |embeddings[0]|)
    requires c != 0.0
    ensures Mean(embeddings, EqualWeights(|embeddings|, c)) ==
      Averaged(PlainMean(embeddings, |embeddings[0]|))
  {
    var n, d := |embeddings|, |embeddings[0]|;
    var w := EqualWeights(n, c);
    EqualWeightsTotal(n, c);
    MeanIsWeightedMean(embeddings, w);
    var r, p := WeightedMean(embeddings, w, d), PlainMean(embeddings, d);
    forall j | 0 <= j < d
      ensures r[j] == p[j]
    {
      EqualWeightsColumn(embeddings, c, j);
    }
    assert r == p;
  }

  /** `n > 0` equal non-zero weights have a non-zero total. */
  lemma EqualWeightsTotal(n: nat, c: real)
    requires n > 0 && c != 0.0
    ensures Sum(EqualWeights(n, c)) == n as real * c != 0.0
  {
    SumOfEqualWeights(n, c);
    CancelCommonFactor(0.0, n as real * c, 0.0, n as real, c);
  }

  /** Column `j` of the mean under equal weights is the column's plain mean. */
  lemma EqualWeightsColumn(embeddings: seq<Vector>, c: real, j: nat)
    requires |embeddings| > 0 && Uniform(embeddings, |embeddings[0]|)
    requires c != 0.0 && j < |embeddings[0]|
    ensures Sum(EqualWeights(|embeddings|, c)) != 0.0
    ensures WeightedMean(embeddings, EqualWeights(|embeddings|, c), |embeddings[0]|)[j] ==
      ColumnTotal(embeddings, j) / |embeddings| as real
  {
    var n, w := |embeddings|, EqualWeights(|embeddings|, c);
    EqualWeightsTotal(n, c);
    ColumnSumOfEqualWeights(embeddings, c, j);
    CancelCommonFactor(ColumnSum(embeddings, w, j), Sum(w), ColumnTotal(embeddings, j), n as real, c);
  }

  /** An embedding together with its weight. */
  datatype WeightedRow = WeightedRow(row: Vector, weight: real)

  /** The (embedding, weight) pairs, in order. */
  function Pairs(rows: seq<Vector>, w: seq<real>): (ps: seq<WeightedRow>)
    requires |w| == |rows|
  {
    seq(|rows|, i requires 0 <= i < |rows| => WeightedRow(rows[i], w[i]))
  }

  /** The term one pair contributes to the weighted sum of column `j`. */
  function ColumnTerm(j: nat): WeightedRow -> real
  {
    (p: WeightedRow) => if j < |p.row| then p.weight * p.row[j] else 0.0
  }

  /** The term one pair contributes to the total weight. */
  function WeightTerm(p: WeightedRow): real
  {
    p.weight
  }

  lemma {:induction false} ColumnSumOfPairs(rows: seq<Vector>, w: seq<real>, j: nat)
    requires |w| == |rows|
    requires forall i :: 0 <= i < |rows| ==> j < |rows[i]|
    ensures ColumnSum(rows, w, j) == SumBy(Pairs(rows, w), ColumnTerm(j))
  {
    if |rows| > 0 {
      ColumnSumOfPairs(rows[1..], w[1..], j);
      assert Pairs(rows, w)[1..] == Pairs(rows[1..], w[1..]);
    }
  }

  lemma {:induction false} WeightTotalOfPairs(rows: seq<Vector>, w: seq<real>)
    requires |w| == |rows|
    ensures Sum(w) == SumBy(Pairs(rows, w), WeightTerm)
  {
    if |rows| > 0 {
      WeightTotalOfPairs(rows[1..], w[1..]);
      assert Pairs(rows, w)[1..] == Pairs(rows[1..], w[1..]);
    }
  }

  /** Reordering the (embedding, weight) pairs together does not change the
      outcome of `mean` on rows of one common length. */
  lemma MeanPermutationInvariant(e: seq<Vector>, w: seq<real>, e2: seq<Vector>, w2: seq<real>)
    requires |w| == |e| && |w2| == |e2|
    requires |e| > 0 && Uniform(e, |e[0]|)
    requires multiset(Pairs(e, w)) == multiset(Pairs(e2, w2))
    ensures Mean(e, w) == Mean(e2, w2)
  {
    var d := |e[0]|;
    var ps, ps2 := Pairs(e, w), Pairs(e2, w2);
    assert |e2| == |ps2| == |multiset(ps2)| == |multiset(ps)| == |ps| == |e|;
    forall k | 0 <= k < |e2|
      ensures |e2[k]| == d
    {
      assert ps2[k] in multiset(ps);
      var i :| 0 <= i < |ps| && ps[i] == ps2[k];
    }
    MeanOfUniformRows(e, w);
    MeanOfUniformRows(e2, w2);
    WeightTotalOfPairs(e, w);
    WeightTotalOfPairs(e2, w2);
    SumByPermutation(ps, ps2, WeightTerm);
    if d > 0 && Sum(w) != 0.0 {
      forall j | 0 <= j < d
        ensures Mean(e, w).v[j] == Mean(e2, w2).v[j]
      {
        ColumnSumOfPairs(e, w, j);
        ColumnSumOfPairs(e2, w2, j);
        SumByPermutation(ps, ps2, ColumnTerm(j));
      }
    }
  }

  /** A ragged input whose total length happens to be `n*d`: `mean` does not
      reject it but re-cuts the buffer into rows of `d`, here averaging
      [1, 2], [3, 4] and [5, 6]. */
  lemma RaggedRowsAreRecut()
    ensures !Uniform([[1.0, 2.0], [3.0], [4.0, 5.0, 6.0]], 2)
    ensures Mean([[1.0, 2.0], [3.0], [4.0, 5.0, 6.0]], [1.0, 1.0, 1.0]) == Averaged([3.0, 4.0])
  {
    var e: seq<Vector> := [[1.0, 2.0], [3.0], [4.0, 5.0, 6.0]];
    var m: seq<Vector> := [[1.0, 2.0], [3.0, 4.0], [5.0, 6.0]];
    var w := [1.0, 1.0, 1.0];
    var flat := [1.0, 2.0, 3.0, 4.0, 5.0, 6.0];
    assert e[1..] == [[3.0], [4.0, 5.0, 6.0]] && e[1..][1..] == [[4.0, 5.0, 6.0]];
    assert Flatten(e) == flat;
    assert m[1..] == [[3.0, 4.0], [5.0, 6.0]] && m[1..][1..] == [[5.0, 6.0]];
    assert Flatten(m) == flat;
    ReshapeFlatten(m, 2);
    assert Reshape(flat, 3, 2) == m;
    assert w[1..] == [1.0, 1.0] && w[1..][1..] == [1.0];
    assert Sum(w) == 3.0;
    var r := WeightedMean(m, w, 2);
    assert ColumnSum(m, w, 0) == 9.0;
    assert ColumnSum(m, w, 1) == 12.0;
    assert r == [3.0, 4.0];
  }

  /** The rows of `RaggedRowsAreRecut` in the order `[1,2]`, `[4,5,6]`,
      `[3]` are re-cut into `[1,2]`, `[4,5]`, `[6,3]` and average to
      `[11/3, 10/3]`. */
  lemma ReorderedRaggedRows()
    ensures Mean([[1.0, 2.0], [4.0, 5.0, 6.0], [3.0]], [1.0, 1.0, 1.0]) == Averaged([11.0 / 3.0, 10.0 / 3.0])
  {
    var e: seq<Vector> := [[1.0, 2.0], [4.0, 5.0, 6.0], [3.0]];
    var m: seq<Vector> := [[1.0, 2.0], [4.0, 5.0], [6.0, 3.0]];
    var w := [1.0, 1.0, 1.0];
    var flat := [1.0, 2.0, 4.0, 5.0, 6.0, 3.0];
    assert e[1..] == [[4.0, 5.0, 6.0], [3.0]] && e[1..][1..] == [[3.0]];
    assert Flatten(e) == flat;
    assert m[1..] == [[4.0, 5.0], [6.0, 3.0]] && m[1..][1..] == [[6.0, 3.0]];
    assert Flatten(m) == flat;
    ReshapeFlatten(m, 2);
    assert Reshape(flat, 3, 2) == m;
    assert w[1..] == [1.0, 1.0] && w[1..][1..] == [1.0];
    assert Sum(w) == 3.0;
    var r := WeightedMean(m, w, 2);
    assert ColumnSum(m, w, 0) == 11.0;
    assert ColumnSum(m, w, 1) == 10.0;
    assert r == [11.0 / 3.0, 10.0 / 3.0];
  }

  /** On ragged rows the source's result depends on the order of the rows:
      the same three rows give `[3,4]` in one order and `[11/3, 10/3]` in
      another. This is why `MeanPermutationInvariant` needs rows of one
      length. */
  lemma RaggedMeanDependsOnOrder()
    ensures multiset([[1.0, 2.0], [4.0, 5.0, 6.0], [3.0]]) == multiset([[1.0, 2.0], [3.0], [4.0, 5.0, 6.0]])
    ensures Mean([[1.0, 2.0], [4.0, 5.0, 6.0], [3.0]], [1.0, 1.0, 1.0])
         != Mean([[1.0, 2.0], [3.0], [4.0, 5.0, 6.0]], [1.0, 1.0, 1.0])
  {
    RaggedRowsAreRecut();
    ReorderedRaggedRows();
    assert [11.0 / 3.0, 10.0 / 3.0][0] != [3.0, 4.0][0];
  }

  /** The aggregator as intended: every row must have the first row's
      length, otherwise it fails with `DimensionMismatch` instead of
      re-cutting the rows. Whatever it returns is the weighted mean of the
      original rows, and on rows of one common length it agrees with `Mean`. */
  function CheckedMean(embeddings: seq<Vector>, weights: seq<real>): (r: MeanOutcome)
    ensures r.Averaged? ==>
      && |embeddings| > 0
      && Uniform(embeddings, |r.v|)
      && |r.v| > 0
      && |weights| == |embeddings|
      && Sum(weights) != 0.0
      && forall j :: 0 <= j < |r.v| ==> r.v[j] == ColumnSum(embeddings, weights, j) / Sum(weights)
    ensures r == Panicked(DimensionMismatch) <==>
      |embeddings| > 0 && !Uniform(embeddings, |embeddings[0]|)
    ensures |embeddings| > 0 && Uniform(embeddings, |embeddings[0]|) ==>
      r == Mean(embeddings, weights)
  {
    if |embeddings| == 0 then Panicked(IndexOutOfBounds)
    else if !Uniform(embeddings, |embeddings[0]|) then Panicked(DimensionMismatch)
    else
      MeanOfUniformRows(embeddings, weights);
      Mean(embeddings, weights)
  }
}
