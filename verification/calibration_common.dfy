/**
 * What the two calibration scripts share: float cells that may be NaN,
 * padding, label derivation, concatenation along columns, the
 * hyper-parameter grid in `itertools.product` order, and the rule that
 * keeps the first strictly better grid point.
 */
module CalibrationCommon {
  import opened Wrappers

  /** A numpy float: a real value or NaN. */
  datatype Float = Num(x: real) | NaN

  /** A 2-D array: every row has `width` cells. */
  datatype Matrix = Matrix(rows: seq<seq<Float>>, width: nat)

  predicate Rectangular(m: Matrix)
  {
    forall i :: 0 <= i < |m.rows| ==> |m.rows[i]| == m.width
  }

  predicate NoNaN(m: Matrix)
  {
    forall i, j :: 0 <= i < |m.rows| && 0 <= j < |m.rows[i]| ==> m.rows[i][j].Num?
  }

  /** Why a calibration step raises instead of returning. */
  datatype CalibrationError =
    | EmptySequence        // `max([])` or `np.concatenate([])`
    | UnexpectedNormalize  // `ValueError('Unexpected value for `normalize`')`
    | NotTwoArrays         // `assert len(features) == 2`
    | ShapeMismatch        // `assert a.shape == b.shape`, or rows that do not line up
    | NothingToUnpack      // `zip(*[])` unpacked into two names

  function Max(a: real, b: real): real
  {
    if a < b then b else a
  }

  // ---------------------------------------------------------------------------
  // Padding

  /** The longest of the feature vectors. */
  function MaxLength(vs: seq<seq<real>>): (n: nat)
    ensures forall i :: 0 <= i < |vs| ==> |vs[i]| <= n
    ensures |vs| > 0 ==> exists i :: 0 <= i < |vs| && |vs[i]| == n
  {
    if |vs| == 0 then 0
    else
      var rest := MaxLength(vs[1..]);
      assert forall i :: 1 <= i < |vs| ==> vs[i] == vs[1..][i - 1];
      if |vs[0]| >= rest then |vs[0]| else rest
  }

  /** `np.pad(v, (0, n - len(v)), constant_values=fill)`. */
  function PadTo(v: seq<real>, n: nat, fill: Float): (r: seq<Float>)
    requires |v| <= n
    ensures |r| == n
    ensures forall j :: 0 <= j < |v| ==> r[j] == Num(v[j])
    ensures forall j :: |v| <= j < n ==> r[j] == fill
  {
    seq(n, j requires 0 <= j < n => if j < |v| then Num(v[j]) else fill)
  }

  /** `[f(c) for c in confidences]`: the raw feature vector of every confidence. */
  function Features<C>(confidences: seq<C>, f: C -> seq<real>): (vs: seq<seq<real>>)
    ensures |vs| == |confidences| && forall i :: 0 <= i < |vs| ==> vs[i] == f(confidences[i])
  {
    seq(|confidences|, i requires 0 <= i < |confidences| => f(confidences[i]))
  }

  /**
   * The stacked, padded features: one row per vector, every row as long as
   * the longest vector, the vector itself first and `fill` after it.
   */
  function Padded(vs: seq<seq<real>>, fill: Float): (m: Matrix)
    ensures Rectangular(m) && |m.rows| == |vs| && m.width == MaxLength(vs)
    ensures forall i, j :: 0 <= i < |vs| && 0 <= j < |vs[i]| ==> m.rows[i][j] == Num(vs[i][j])
    ensures forall i, j :: 0 <= i < |vs| && |vs[i]| <= j < m.width ==> m.rows[i][j] == fill
  {
    var n := MaxLength(vs);
    Matrix(seq(|vs|, i requires 0 <= i < |vs| => PadTo(vs[i], n, fill)), n)
  }

  /**
   * The padding loop of `pad_features`: `max` over the lengths (which
   * raises on no confidences), then one padded row appended per confidence,
   * its original length recorded beside it.
   */
  method PadRows<C>(confidences: seq<C>, f: C -> seq<real>, fill: Float)
      returns (r: Result<(Matrix, seq<nat>), CalibrationError>)
    ensures r.Err? <==> |confidences| == 0
    ensures r.Err? ==> r.error == EmptySequence
    ensures r.Ok? ==> r.value.0 == Padded(Features(confidences, f), fill)
    ensures r.Ok? ==> |r.value.1| == |confidences|
                      && forall i :: 0 <= i < |confidences| ==> r.value.1[i] == |f(confidences[i])|
  {
    if |confidences| == 0 {
      return Err(EmptySequence);
    }
    var padLen := MaxLength(Features(confidences, f));
    var rows: seq<seq<Float>> := [];
    var lengths: seq<nat> := [];
    for i := 0 to |confidences|
      invariant |rows| == i == |lengths|
      invariant forall a :: 0 <= a < i ==> rows[a] == PadTo(f(confidences[a]), padLen, fill)
      invariant forall a :: 0 <= a < i ==> lengths[a] == |f(confidences[a])|
    {
      var features := f(confidences[i]);
      lengths := lengths + [|features|];
      rows := rows + [PadTo(features, padLen, fill)];
    }
    r := Ok((Matrix(rows, padLen), lengths));
  }

  /** `m[np.isnan(m)] = 0`. */
  function ZeroNaN(m: Matrix): (r: Matrix)
    ensures NoNaN(r) && r.width == m.width && |r.rows| == |m.rows|
    ensures forall i :: 0 <= i < |m.rows| ==> |r.rows[i]| == |m.rows[i]|
    ensures forall i, j :: 0 <= i < |m.rows| && 0 <= j < |m.rows[i]| ==>
      r.rows[i][j] == if m.rows[i][j].NaN? then Num(0.0) else m.rows[i][j]
  {
    Matrix(seq(|m.rows|, i requires 0 <= i < |m.rows| =>
             seq(|m.rows[i]|, j requires 0 <= j < |m.rows[i]| =>
               if m.rows[i][j].NaN? then Num(0.0) else m.rows[i][j])),
           m.width)
  }

  /** The same replacement, cell by cell in place, as the boolean-mask assignment does it. */
  method ReplaceNaN(m: Matrix) returns (r: Matrix)
    ensures r == ZeroNaN(m)
  {
    var rows := m.rows;
    var i := 0;
    while i < |m.rows|
      invariant i <= |rows| == |m.rows|
      invariant forall a :: 0 <= a < |rows| ==> |rows[a]| == |m.rows[a]|
      invariant forall a :: i <= a < |rows| ==> rows[a] == m.rows[a]
      invariant forall a, j :: 0 <= a < i && 0 <= j < |rows[a]| ==> rows[a][j] == ZeroNaN(m).rows[a][j]
    {
      var j := 0;
      while j < |m.rows[i]|
        invariant |rows| == |m.rows| && i < |m.rows|
        invariant j <= |rows[i]| == |m.rows[i]|
        invariant forall a :: 0 <= a < |rows| ==> |rows[a]| == |m.rows[a]|
        invariant forall a :: i < a < |rows| ==> rows[a] == m.rows[a]
        invariant forall a, c :: 0 <= a < i && 0 <= c < |rows[a]| ==> rows[a][c] == ZeroNaN(m).rows[a][c]
        invariant forall c :: 0 <= c < j ==> rows[i][c] == ZeroNaN(m).rows[i][c]
        invariant forall c :: j <= c < |rows[i]| ==> rows[i][c] == m.rows[i][c]
      {
        if rows[i][j].NaN? {
          rows := rows[i := rows[i][j := Num(0.0)]];
        }
        j := j + 1;
      }
      i := i + 1;
    }
    r := Matrix(rows, m.width);
    assert r.rows == ZeroNaN(m).rows by {
      forall a | 0 <= a < |rows| ensures rows[a] == ZeroNaN(m).rows[a] {
      }
    }
  }

  // ---------------------------------------------------------------------------
  // Labels

  /**
   * The labels of `run`/`main`/`__main__`: collect `c[0].first_mistake` of
   * every confidence, add one, and compare with zero.
   */
  method DeriveLabels<C>(confidences: seq<C>, firstMistake: C -> int) returns (labels: seq<bool>)
    ensures |labels| == |confidences|
    ensures forall i :: 0 <= i < |confidences| ==> (labels[i] <==> firstMistake(confidences[i]) == -1)
  {
    var mistakes: seq<int> := [];
    var i := 0;
    while i < |confidences|
      invariant i <= |confidences| && |mistakes| == i
      invariant forall a :: 0 <= a < i ==> mistakes[a] == firstMistake(confidences[a])
    {
      mistakes := mistakes + [firstMistake(confidences[i])];
      i := i + 1;
    }
    var shifted := seq(|mistakes|, a requires 0 <= a < |mistakes| => mistakes[a] + 1);
    labels := seq(|shifted|, a requires 0 <= a < |shifted| => shifted[a] == 0);
  }

  // ---------------------------------------------------------------------------
  // Concatenation along columns

  /** The width of the concatenation: every block's width counts once. */
  function SumWidths(ms: seq<Matrix>): (w: nat)
    ensures forall k :: 0 <= k < |ms| ==> ms[k].width <= w
    ensures (forall k :: 0 <= k < |ms| ==> ms[k].width == 0) ==> w == 0
  {
    if |ms| == 0 then 0 else ms[0].width + SumWidths(ms[1..])
  }

  /** All matrices have `n` rows and are rectangular. */
  predicate AllRows(ms: seq<Matrix>, n: nat)
  {
    forall k :: 0 <= k < |ms| ==> Rectangular(ms[k]) && |ms[k].rows| == n
  }

  /** `np.concatenate(ms, axis=1)` for matrices with `n` rows. */
  function ConcatColumns(ms: seq<Matrix>, n: nat): (r: Matrix)
    requires AllRows(ms, n)
    ensures Rectangular(r) && |r.rows| == n && r.width == SumWidths(ms)
    ensures |ms| > 0 ==> forall i, j :: 0 <= i < n && 0 <= j < ms[0].width ==> r.rows[i][j] == ms[0].rows[i][j]
    ensures |ms| > 0 ==> forall i, j :: 0 <= i < n && ms[0].width <= j < r.width ==>
      r.rows[i][j] == ConcatColumns(ms[1..], n).rows[i][j - ms[0].width]
  {
    if |ms| == 0 then Matrix(seq(n, _ => []), 0)
    else
      var rest := ConcatColumns(ms[1..], n);
      Matrix(seq(n, i requires 0 <= i < n => ms[0].rows[i] + rest.rows[i]), ms[0].width + rest.width)
  }

  /** Concatenation keeps every cell: cell `j` of block `k` lands after the widths of the blocks before it. */
  lemma {:induction false} ConcatColumnsCell(ms: seq<Matrix>, n: nat, k: nat, i: nat, j: nat)
    requires AllRows(ms, n) && k < |ms| && i < n && j < ms[k].width
    ensures SumWidths(ms[..k]) + j < ConcatColumns(ms, n).width
    ensures ConcatColumns(ms, n).rows[i][SumWidths(ms[..k]) + j] == ms[k].rows[i][j]
  {
    if k > 0 {
      assert ms[1..][..k - 1] == ms[..k][1..];
      ConcatColumnsCell(ms[1..], n, k - 1, i, j);
      SumWidthsSplit(ms, k);
    }
  }

  lemma SumWidthsSplit(ms: seq<Matrix>, k: nat)
    requires 0 < k <= |ms|
    ensures SumWidths(ms[..k]) == ms[0].width + SumWidths(ms[1..][..k - 1])
  {
    assert ms[..k][1..] == ms[1..][..k - 1];
  }

  // ---------------------------------------------------------------------------
  // The hyper-parameter grid

  /** One grid point: `(max_depth, eta, num_round)`. */
  datatype Params = Params(maxDepth: nat, eta: real, numRound: nat)

  /** The blocks one after the other. */
  function Flatten<T>(bs: seq<seq<T>>): (r: seq<T>)
    ensures forall i, t :: 0 <= i < |bs| && 0 <= t < |bs[i]| ==> bs[i][t] in r
  {
    if |bs| == 0 then []
    else
      var rest := Flatten(bs[1..]);
      assert forall i, t :: 1 <= i < |bs| && 0 <= t < |bs[i]| ==> bs[i][t] == bs[1..][i - 1][t];
      bs[0] + rest
  }

  /** Blocks of width `w` flatten to `|bs| * w` entries, entry `t` of block `i` landing at `i * w + t`. */
  lemma {:induction false} FlattenAt<T>(bs: seq<seq<T>>, w: nat, i: nat, t: nat)
    requires forall b :: 0 <= b < |bs| ==> |bs[b]| == w
    requires i < |bs| && t < w
    ensures |Flatten(bs)| == |bs| * w
    ensures i * w + t < |bs| * w && Flatten(bs)[i * w + t] == bs[i][t]
    decreases i
  {
    FlattenLength(bs, w);
    if i > 0 {
      FlattenAt(bs[1..], w, i - 1, t);
      assert (i - 1) * w + w == i * w;
    }
  }

  lemma {:induction false} FlattenLength<T>(bs: seq<seq<T>>, w: nat)
    requires forall b :: 0 <= b < |bs| ==> |bs[b]| == w
    ensures |Flatten(bs)| == |bs| * w
  {
    if |bs| > 0 {
      FlattenLength(bs[1..], w);
      assert (|bs| - 1) * w + w == |bs| * w;
    }
  }

  /** The points with `max_depth == x`, in the order `product` yields them. */
  function Block(x: nat, ys: seq<real>, zs: seq<nat>): (r: seq<Params>)
    ensures |r| == |ys| * |zs|
  {
    var rows := seq(|ys|, j requires 0 <= j < |ys| => seq(|zs|, k requires 0 <= k < |zs| => Params(x, ys[j], zs[k])));
    FlattenLength(rows, |zs|);
    Flatten(rows)
  }

  /** `itertools.product(xs, ys, zs)`: nested loops, the first position varying slowest. */
  function Product(xs: seq<nat>, ys: seq<real>, zs: seq<nat>): (r: seq<Params>)
    ensures |r| == |xs| * (|ys| * |zs|)
  {
    var blocks := seq(|xs|, i requires 0 <= i < |xs| => Block(xs[i], ys, zs));
    FlattenLength(blocks, |ys| * |zs|);
    Flatten(blocks)
  }

  /** Every combination `(xs[i], ys[j], zs[k])` appears, at `i * (|ys| * |zs|) + j * |zs| + k`. */
  lemma ProductAt(xs: seq<nat>, ys: seq<real>, zs: seq<nat>, i: nat, j: nat, k: nat)
    requires i < |xs| && j < |ys| && k < |zs|
    ensures |Product(xs, ys, zs)| == |xs| * (|ys| * |zs|)
    ensures i * (|ys| * |zs|) + (j * |zs| + k) < |Product(xs, ys, zs)|
    ensures Product(xs, ys, zs)[i * (|ys| * |zs|) + (j * |zs| + k)] == Params(xs[i], ys[j], zs[k])
  {
    var rows := seq(|ys|, j requires 0 <= j < |ys| => seq(|zs|, k requires 0 <= k < |zs| => Params(xs[i], ys[j], zs[k])));
    FlattenAt(rows, |zs|, j, k);
    var blocks := seq(|xs|, i requires 0 <= i < |xs| => Block(xs[i], ys, zs));
    forall b | 0 <= b < |xs| ensures |blocks[b]| == |ys| * |zs| {
      FlattenLength(seq(|ys|, j requires 0 <= j < |ys| => seq(|zs|, k requires 0 <= k < |zs| => Params(xs[b], ys[j], zs[k]))), |zs|);
    }
    FlattenAt(blocks, |ys| * |zs|, i, j * |zs| + k);
  }

  // ---------------------------------------------------------------------------
  // Keeping the first strictly better grid point

  /** The score of every grid point, in grid order. */
  function Ranked<E>(grid: seq<Params>, evaluate: Params -> E, score: E -> real): (s: seq<real>)
    ensures |s| == |grid| && forall j :: 0 <= j < |grid| ==> s[j] == score(evaluate(grid[j]))
  {
    seq(|grid|, j requires 0 <= j < |grid| => score(evaluate(grid[j])))
  }

  /** `k` is the first point with the highest score, and that score beats the initial 0. */
  predicate IsFirstBest(scores: seq<real>, k: nat)
  {
    && k < |scores| && 0.0 < scores[k]
    && (forall j :: 0 <= j < k ==> scores[j] < scores[k])
    && (forall j :: k < j < |scores| ==> scores[j] <= scores[k])
  }

  /** There is at most one first best point. */
  lemma FirstBestUnique(scores: seq<real>, k1: nat, k2: nat)
    requires IsFirstBest(scores, k1) && IsFirstBest(scores, k2)
    ensures k1 == k2
  {
  }

  /**
   * The selection loop of `tune_and_train`: train and score every point,
   * keep a point only when its score is strictly above the best so far
   * (which starts at 0), then `best = max(best, score)`.
   */
  method SelectFirstBest<E>(grid: seq<Params>, evaluate: Params -> E, score: E -> real)
      returns (best: Option<(Params, E)>, bestScore: real)
    ensures best.None? <==> forall j :: 0 <= j < |grid| ==> score(evaluate(grid[j])) <= 0.0
    ensures best.Some? ==> exists k: nat :: IsFirstBest(Ranked(grid, evaluate, score), k)
                                       && best.value == (grid[k], evaluate(grid[k]))
    ensures 0.0 <= bestScore && forall j :: 0 <= j < |grid| ==> score(evaluate(grid[j])) <= bestScore
    ensures best.None? ==> bestScore == 0.0
    ensures best.Some? ==> bestScore == score(best.value.1)
  {
    ghost var scores := Ranked(grid, evaluate, score);
    ghost var at: nat := 0;
    best, bestScore := None, 0.0;
    var i := 0;
    while i < |grid|
      invariant i <= |grid| && 0.0 <= bestScore
      invariant forall j :: 0 <= j < i ==> scores[j] <= bestScore
      invariant best.None? ==> bestScore == 0.0
      invariant best.Some? ==> IsFirstBest(scores[..i], at) && best.value == (grid[at], evaluate(grid[at]))
                               && bestScore == scores[at]
    {
      var candidate := evaluate(grid[i]);
      var s := score(candidate);
      if s > bestScore {
        best, at := Some((grid[i], candidate)), i;
        bestScore := s;
      }
      bestScore := Max(bestScore, s);
      i := i + 1;
    }
    assert scores[..i] == scores;
    assert forall j :: 0 <= j < |grid| ==> scores[j] == score(evaluate(grid[j]));
  }
}
