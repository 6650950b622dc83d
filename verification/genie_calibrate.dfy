/**
 * The calibrator of genienlp/calibrate.py: padded and normalised feature
 * matrices, the interleaving of two feature matrices, the assembly of all
 * featurizers into one matrix, the hyper-parameter search and the
 * accuracy-at-pass-rate curve.
 */
module GenieCalibrate {
  import opened Wrappers
  import opened CalibrationCommon

  // ---------------------------------------------------------------------------
  // Normalisation and padding

  /**
   * A column statistic applied to one cell: given the whole column and the
   * cell's value, the normalised value (`(x - mean) / sqrt(var)` or
   * `(x - min) / (max - min)`); it may yield NaN.
   */
  type Normalizer = (seq<Float>, real) -> Float

  function Column(m: Matrix, j: nat): (col: seq<Float>)
    requires Rectangular(m) && j < m.width
    ensures |col| == |m.rows| && forall i :: 0 <= i < |m.rows| ==> col[i] == m.rows[i][j]
  {
    seq(|m.rows|, i requires 0 <= i < |m.rows| => m.rows[i][j])
  }

  /** A numpy column-wise normalisation: NaN cells stay NaN, every other cell goes through `g`. */
  function ColumnWise(m: Matrix, g: Normalizer): (r: Matrix)
    requires Rectangular(m)
    ensures Rectangular(r) && |r.rows| == |m.rows| && r.width == m.width
    ensures forall i, j :: 0 <= i < |m.rows| && 0 <= j < m.width && m.rows[i][j].NaN? ==> r.rows[i][j].NaN?
    ensures forall i, j :: 0 <= i < |m.rows| && 0 <= j < m.width && m.rows[i][j].Num? ==>
      r.rows[i][j] == g(Column(m, j), m.rows[i][j].x)
  {
    Matrix(seq(|m.rows|, i requires 0 <= i < |m.rows| =>
             seq(m.width, j requires 0 <= j < m.width =>
               if m.rows[i][j].NaN? then NaN else g(Column(m, j), m.rows[i][j].x))),
           m.width)
  }

  /** The `normalize` argument accepted by `pad_features`. */
  predicate KnownMode(normalize: string)
  {
    normalize == "var" || normalize == "max" || normalize == "none"
  }

  /**
   * What `pad_features` returns: the padded matrix (NaN in the padding),
   * normalised as `normalize` says, with every NaN then set to 0, and the
   * original lengths.
   */
  function PaddedFeatures<C>(confidences: seq<C>, f: C -> seq<real>, normalize: string,
                             byVar: Normalizer, byMax: Normalizer): (r: Result<(Matrix, seq<nat>), CalibrationError>)
    ensures r.Err? <==> |confidences| == 0 || !KnownMode(normalize)
    ensures r.Err? ==> r.error == if |confidences| == 0 then EmptySequence else UnexpectedNormalize
    ensures r.Ok? ==> var (m, lengths) := r.value;
      && Rectangular(m) && NoNaN(m)
      && |m.rows| == |confidences| && m.width == MaxLength(Features(confidences, f))
      && |lengths| == |confidences|
      && (forall i :: 0 <= i < |confidences| ==> lengths[i] == |f(confidences[i])|)
      && (forall i, j :: 0 <= i < |confidences| && lengths[i] <= j < m.width ==> m.rows[i][j] == Num(0.0))
      && (normalize == "none" ==>
            forall i, j :: 0 <= i < |confidences| && 0 <= j < lengths[i] ==> m.rows[i][j] == Num(f(confidences[i])[j]))
      && (normalize != "none" ==>
            var g := if normalize == "var" then byVar else byMax;
            var padded := Padded(Features(confidences, f), NaN);
            forall i, j :: 0 <= i < |confidences| && 0 <= j < lengths[i] ==>
              j < padded.width && m.rows[i][j] == NormalizedCell(g, padded, j, f(confidences[i])[j]))
  {
    if |confidences| == 0 then Err(EmptySequence)
    else if !KnownMode(normalize) then Err(UnexpectedNormalize)
    else
      var vs := Features(confidences, f);
      var padded := Padded(vs, NaN);
      var lengths := seq(|vs|, i requires 0 <= i < |vs| => |vs[i]|);
      if normalize == "var" then
        NormalizedCells(vs, byVar);
        Ok((ZeroNaN(ColumnWise(padded, byVar)), lengths))
      else if normalize == "max" then
        NormalizedCells(vs, byMax);
        Ok((ZeroNaN(ColumnWise(padded, byMax)), lengths))
      else
        Ok((ZeroNaN(padded), lengths))
  }

  /** Normalising the NaN-padded matrix column-wise and zeroing the NaNs gives `NormalizedCell` at every feature. */
  lemma NormalizedCells(vs: seq<seq<real>>, g: Normalizer)
    ensures var padded := Padded(vs, NaN);
      var m := ZeroNaN(ColumnWise(padded, g));
      forall i, j :: 0 <= i < |vs| && 0 <= j < |vs[i]| ==>
        j < padded.width && m.rows[i][j] == NormalizedCell(g, padded, j, vs[i][j])
  {
  }

  /** A normalised cell of column `j` as `pad_features` leaves it: the statistic's value, or 0 where it is NaN. */
  function NormalizedCell(g: Normalizer, padded: Matrix, j: nat, x: real): (c: Float)
    requires Rectangular(padded) && j < padded.width
    ensures c.Num?
    ensures g(Column(padded, j), x).Num? ==> c == g(Column(padded, j), x)
  {
    var v := g(Column(padded, j), x);
    if v.NaN? then Num(0.0) else v
  }

  /** `pad_features(confidences, f, normalize)`. */
  method PadFeatures<C>(confidences: seq<C>, f: C -> seq<real>, normalize: string,
                        byVar: Normalizer, byMax: Normalizer)
      returns (r: Result<(Matrix, seq<nat>), CalibrationError>)
    ensures r == PaddedFeatures(confidences, f, normalize, byVar, byMax)
  {
    var padded := PadRows(confidences, f, NaN);
    if padded.Err? {
      return Err(padded.error);
    }
    var (m, lengths) := padded.value;
    ghost var vs := Features(confidences, f);
    assert lengths == seq(|vs|, i requires 0 <= i < |vs| => |vs[i]|);
    if normalize == "var" {
      m := ColumnWise(m, byVar);
    } else if normalize == "max" {
      m := ColumnWise(m, byMax);
    } else if normalize != "none" {
      return Err(UnexpectedNormalize);
    }
    m := ReplaceNaN(m);
    r := Ok((m, lengths));
  }

  // ---------------------------------------------------------------------------
  // Interleaving

  predicate SameShape(a: Matrix, b: Matrix)
  {
    |a.rows| == |b.rows| && a.width == b.width
  }

  /** Two rows of one length, cells taken alternately from `x` and `y`. */
  function InterleaveRow(x: seq<Float>, y: seq<Float>): (r: seq<Float>)
    requires |x| == |y|
    ensures |r| == 2 * |x|
  {
    if |x| == 0 then [] else [x[0], y[0]] + InterleaveRow(x[1..], y[1..])
  }

  /** Cell `2h` of an interleaved row is `x[h]`, cell `2h + 1` is `y[h]`. */
  lemma {:induction false} InterleaveRowAt(x: seq<Float>, y: seq<Float>, h: nat)
    requires |x| == |y| && h < |x|
    ensures InterleaveRow(x, y)[2 * h] == x[h] && InterleaveRow(x, y)[2 * h + 1] == y[h]
  {
    if h > 0 {
      InterleaveRowAt(x[1..], y[1..], h - 1);
    }
  }

  /** A row is the interleaving of `x` and `y` as soon as it agrees with them at every even and odd cell. */
  lemma InterleaveRowCells(x: seq<Float>, y: seq<Float>, r: seq<Float>)
    requires |x| == |y| && |r| == 2 * |x|
    requires forall h :: 0 <= h < |x| ==> r[2 * h] == x[h] && r[2 * h + 1] == y[h]
    ensures r == InterleaveRow(x, y)
  {
    forall j | 0 <= j < |r| ensures r[j] == InterleaveRow(x, y)[j] {
      var h := j / 2;
      InterleaveRowAt(x, y, h);
      assert j == 2 * h || j == 2 * h + 1;
    }
  }

  /** Columns taken alternately from `a` (even positions) and `b` (odd positions). */
  function Interleave(a: Matrix, b: Matrix): (r: Matrix)
    requires Rectangular(a) && Rectangular(b) && SameShape(a, b)
    ensures Rectangular(r) && |r.rows| == |a.rows| && r.width == a.width + b.width
  {
    Matrix(seq(|a.rows|, i requires 0 <= i < |a.rows| => InterleaveRow(a.rows[i], b.rows[i])), 2 * a.width)
  }

  /** Even column `2j` holds column `j` of `a`, odd column `2j + 1` column `j` of `b`. */
  lemma InterleaveCell(a: Matrix, b: Matrix, i: nat, j: nat)
    requires Rectangular(a) && Rectangular(b) && SameShape(a, b)
    requires i < |a.rows| && j < a.width
    ensures Interleave(a, b).rows[i][2 * j] == a.rows[i][j]
    ensures Interleave(a, b).rows[i][2 * j + 1] == b.rows[i][j]
  {
    InterleaveRowAt(a.rows[i], b.rows[i], j);
  }

  /** The even-numbered columns (`m[:, 0::2]`) of a matrix of even width. */
  function EvenColumns(m: Matrix): (r: Matrix)
    requires Rectangular(m) && m.width % 2 == 0
    ensures Rectangular(r) && |r.rows| == |m.rows| && 2 * r.width == m.width
  {
    Matrix(seq(|m.rows|, i requires 0 <= i < |m.rows| =>
             seq(m.width / 2, j requires 0 <= j < m.width / 2 => m.rows[i][2 * j])),
           m.width / 2)
  }

  /** The odd-numbered columns (`m[:, 1::2]`) of a matrix of even width. */
  function OddColumns(m: Matrix): (r: Matrix)
    requires Rectangular(m) && m.width % 2 == 0
    ensures Rectangular(r) && |r.rows| == |m.rows| && 2 * r.width == m.width
  {
    Matrix(seq(|m.rows|, i requires 0 <= i < |m.rows| =>
             seq(m.width / 2, j requires 0 <= j < m.width / 2 => m.rows[i][2 * j + 1])),
           m.width / 2)
  }

  /** Interleaving loses nothing: the strided slices give back both operands. */
  lemma InterleaveSplits(a: Matrix, b: Matrix)
    requires Rectangular(a) && Rectangular(b) && SameShape(a, b)
    ensures EvenColumns(Interleave(a, b)) == a
    ensures OddColumns(Interleave(a, b)) == b
  {
    var r := Interleave(a, b);
    var even, odd := EvenColumns(r), OddColumns(r);
    forall i | 0 <= i < |a.rows| ensures even.rows[i] == a.rows[i] && odd.rows[i] == b.rows[i] {
      forall j | 0 <= j < a.width ensures even.rows[i][j] == a.rows[i][j] && odd.rows[i][j] == b.rows[i][j] {
        InterleaveRowAt(a.rows[i], b.rows[i], j);
      }
    }
    assert even.rows == a.rows;
    assert odd.rows == b.rows;
  }

  /** `np.empty` of twice the width, then `[:, 0::2] = a` and `[:, 1::2] = b`. */
  method Strided(a: Matrix, b: Matrix) returns (interleaved: array2<Float>)
    requires Rectangular(a) && Rectangular(b) && SameShape(a, b)
    ensures fresh(interleaved)
    ensures interleaved.Length0 == |a.rows| && interleaved.Length1 == 2 * a.width
    ensures forall i, h :: 0 <= i < |a.rows| && 0 <= h < a.width ==>
      interleaved[i, 2 * h] == a.rows[i][h] && interleaved[i, 2 * h + 1] == b.rows[i][h]
  {
    var n, c := |a.rows|, a.width;
    interleaved := new Float[n, 2 * c];
    forall i, h | 0 <= i < n && 0 <= h < c {
      interleaved[i, 2 * h] := a.rows[i][h];
    }
    forall i, h | 0 <= i < n && 0 <= h < c {
      interleaved[i, 2 * h + 1] := b.rows[i][h];
    }
  }

  /**
   * `interleave_features(features)`: exactly two matrices of one shape,
   * written into a fresh array through the strided slices `0::2` and `1::2`.
   */
  method InterleaveFeatures(features: seq<Matrix>) returns (r: Result<Matrix, CalibrationError>)
    requires forall k :: 0 <= k < |features| ==> Rectangular(features[k])
    ensures r.Err? <==> |features| != 2 || !SameShape(features[0], features[1])
    ensures r.Err? ==> r.error == if |features| != 2 then NotTwoArrays else ShapeMismatch
    ensures r.Ok? ==> r.value == Interleave(features[0], features[1])
  {
    if |features| != 2 {
      return Err(NotTwoArrays);
    }
    var a, b := features[0], features[1];
    if !SameShape(a, b) {
      return Err(ShapeMismatch);
    }
    var n, c := |a.rows|, a.width;
    var interleaved := Strided(a, b);
    var rows := seq(n, i requires 0 <= i < n reads interleaved =>
                  seq(2 * c, j requires 0 <= j < 2 * c reads interleaved => interleaved[i, j]));
    forall i | 0 <= i < n ensures rows[i] == InterleaveRow(a.rows[i], b.rows[i]) {
      InterleaveRowCells(a.rows[i], b.rows[i], rows[i]);
    }
    r := Ok(Matrix(rows, 2 * c));
  }

  // ---------------------------------------------------------------------------
  // Assembling the features of `run`

  /** A featurizer: one feature function, or a tuple of them whose padded matrices are interleaved. */
  datatype Featurizer<-C> = Plain(f: C -> seq<real>) | Tuple(fs: seq<C -> seq<real>>)

  /**
   * The matrix one featurizer contributes in `run` (padded with the default
   * `'var'` normalisation): a tuple pads each of its functions first, then
   * interleaves the results.
   */
  function FeatureBlock<C>(confidences: seq<C>, fz: Featurizer<C>, byVar: Normalizer, byMax: Normalizer)
    : (r: Result<Matrix, CalibrationError>)
    ensures r.Ok? ==> Rectangular(r.value) && |r.value.rows| == |confidences|
  {
    match fz
    case Plain(f) =>
      var p := PaddedFeatures(confidences, f, "var", byVar, byMax);
      if p.Err? then Err(p.error) else Ok(p.value.0)
    case Tuple(fs) =>
      if |confidences| == 0 && |fs| > 0 then Err(EmptySequence)
      else if |fs| != 2 then Err(NotTwoArrays)
      else
        var a := PaddedFeatures(confidences, fs[0], "var", byVar, byMax).value.0;
        var b := PaddedFeatures(confidences, fs[1], "var", byVar, byMax).value.0;
        if !SameShape(a, b) then Err(ShapeMismatch) else Ok(Interleave(a, b))
  }

  /**
   * A featurizer fails exactly when there are no confidences, or when it is
   * a tuple that is not a pair or whose two padded matrices differ in width.
   */
  lemma FeatureBlockFails<C>(confidences: seq<C>, fz: Featurizer<C>, byVar: Normalizer, byMax: Normalizer)
    ensures FeatureBlock(confidences, fz, byVar, byMax).Err? <==>
      (|confidences| == 0 || (fz.Tuple? && (|fz.fs| != 2 ||
         MaxLength(Features(confidences, fz.fs[0])) != MaxLength(Features(confidences, fz.fs[1])))))
  {
  }

  /** A pair of feature functions interleaves their padded, normalised matrices. */
  lemma TupleBlock<C>(confidences: seq<C>, f: C -> seq<real>, g: C -> seq<real>, byVar: Normalizer, byMax: Normalizer)
    requires |confidences| > 0
    requires MaxLength(Features(confidences, f)) == MaxLength(Features(confidences, g))
    ensures var a := PaddedFeatures(confidences, f, "var", byVar, byMax).value.0;
      var b := PaddedFeatures(confidences, g, "var", byVar, byMax).value.0;
      && SameShape(a, b)
      && FeatureBlock(confidences, Tuple([f, g]), byVar, byMax) == Ok(Interleave(a, b))
  {
  }

  /** The first error in `rs`, or all the values when there is none (an exception stops a loop at its first failure). */
  function Collect<T, E>(rs: seq<Result<T, E>>): (r: Result<seq<T>, E>)
    ensures r.Err? <==> exists k :: 0 <= k < |rs| && rs[k].Err?
    ensures r.Err? ==> exists k :: 0 <= k < |rs| && rs[k] == Err(r.error) && forall j :: 0 <= j < k ==> rs[j].Ok?
    ensures r.Ok? ==> |r.value| == |rs| && forall k :: 0 <= k < |rs| ==> rs[k] == Ok(r.value[k])
  {
    if |rs| == 0 then Ok([])
    else if rs[0].Err? then Err(rs[0].error)
    else
      var rest := Collect(rs[1..]);
      assert forall k :: 1 <= k < |rs| ==> rs[k] == rs[1..][k - 1];
      if rest.Err? then
        ghost var k :| 0 <= k < |rs[1..]| && rs[1..][k] == Err(rest.error) && forall j :: 0 <= j < k ==> rs[1..][j].Ok?;
        assert rs[k + 1] == Err(rest.error);
        Err(rest.error)
      else Ok([rs[0].value] + rest.value)
  }

  /** When every result is a value, `Collect` gives exactly those values. */
  lemma {:induction false} CollectAll<T, E>(rs: seq<Result<T, E>>, vs: seq<T>)
    requires AllOk(rs, vs, |rs|)
    ensures Collect(rs) == Ok(vs)
  {
    if |rs| > 0 {
      CollectAll(rs[1..], vs[1..]);
      assert vs == [vs[0]] + vs[1..];
    }
  }

  /** The first `k` results are the values `vs`. */
  ghost predicate AllOk<T, E>(rs: seq<Result<T, E>>, vs: seq<T>, k: nat)
  {
    k <= |rs| && |vs| == k && forall a :: 0 <= a < k ==> rs[a] == Ok(vs[a])
  }

  lemma AllOkStep<T, E>(rs: seq<Result<T, E>>, vs: seq<T>, k: nat)
    requires AllOk(rs, vs, k) && k < |rs| && rs[k].Ok?
    ensures AllOk(rs, vs + [rs[k].value], k + 1)
  {
  }

  /** The first error is the one `Collect` reports. */
  lemma {:induction false} CollectFirst<T, E>(rs: seq<Result<T, E>>, k: nat)
    requires k < |rs| && rs[k].Err? && forall j :: 0 <= j < k ==> rs[j].Ok?
    ensures Collect(rs) == Err(rs[k].error)
  {
    if k > 0 {
      CollectFirst(rs[1..], k - 1);
    }
  }

  /** The first error among the featurizers' blocks, or all the blocks. */
  function Blocks<C>(confidences: seq<C>, fzs: seq<Featurizer<C>>, byVar: Normalizer, byMax: Normalizer)
    : (r: Result<seq<Matrix>, CalibrationError>)
    ensures r.Err? <==> exists k :: 0 <= k < |fzs| && FeatureBlock(confidences, fzs[k], byVar, byMax).Err?
    ensures r.Ok? ==> |r.value| == |fzs| && AllRows(r.value, |confidences|)
    ensures r.Ok? ==> forall k :: 0 <= k < |fzs| ==> FeatureBlock(confidences, fzs[k], byVar, byMax) == Ok(r.value[k])
  {
    var rs := seq(|fzs|, k requires 0 <= k < |fzs| => FeatureBlock(confidences, fzs[k], byVar, byMax));
    var r := Collect(rs);
    assert forall k :: 0 <= k < |fzs| ==> rs[k] == FeatureBlock(confidences, fzs[k], byVar, byMax);
    assert r.Ok? ==> forall k :: 0 <= k < |fzs| ==> rs[k] == Ok(r.value[k]);
    r
  }

  /** The block of one featurizer, computed as the loop body of `run` does. */
  method FeaturizerBlock<C>(confidences: seq<C>, fz: Featurizer<C>, byVar: Normalizer, byMax: Normalizer)
      returns (r: Result<Matrix, CalibrationError>)
    ensures r == FeatureBlock(confidences, fz, byVar, byMax)
  {
    match fz
    case Plain(f) =>
      var p := PadFeatures(confidences, f, "var", byVar, byMax);
      if p.Err? {
        return Err(p.error);
      }
      r := Ok(p.value.0);
    case Tuple(fs) =>
      var padded: seq<Matrix> := [];
      for k := 0 to |fs|
        invariant |padded| == k && (k > 0 ==> |confidences| > 0)
        invariant forall a :: 0 <= a < k ==> padded[a] == PaddedFeatures(confidences, fs[a], "var", byVar, byMax).value.0
      {
        var p := PadFeatures(confidences, fs[k], "var", byVar, byMax);
        if p.Err? {
          return Err(p.error);
        }
        padded := padded + [p.value.0];
      }
      r := InterleaveFeatures(padded);
  }

  /**
   * The feature loop of `run`: one block per featurizer, concatenated along
   * the columns; no featurizer at all leaves `np.concatenate` nothing.
   */
  method AssembleFeatures<C>(confidences: seq<C>, fzs: seq<Featurizer<C>>, byVar: Normalizer, byMax: Normalizer)
      returns (r: Result<Matrix, CalibrationError>)
    ensures r.Err? <==> |fzs| == 0 || Blocks(confidences, fzs, byVar, byMax).Err?
    ensures |fzs| == 0 ==> r == Err(EmptySequence)
    ensures r.Ok? ==> r.value == ConcatColumns(Blocks(confidences, fzs, byVar, byMax).value, |confidences|)
    ensures r.Ok? ==> |r.value.rows| == |confidences| && r.value.width == SumWidths(Blocks(confidences, fzs, byVar, byMax).value)
  {
    var blocks := BuildBlocks(confidences, fzs, byVar, byMax);
    if blocks.Err? {
      return Err(blocks.error);
    }
    if |blocks.value| == 0 {
      return Err(EmptySequence);
    }
    r := Ok(ConcatColumns(blocks.value, |confidences|));
  }

  /** The loop over the featurizers, stopped by the first one that raises. */
  method BuildBlocks<C>(confidences: seq<C>, fzs: seq<Featurizer<C>>, byVar: Normalizer, byMax: Normalizer)
      returns (r: Result<seq<Matrix>, CalibrationError>)
    ensures r == Blocks(confidences, fzs, byVar, byMax)
  {
    ghost var rs := seq(|fzs|, k requires 0 <= k < |fzs| => FeatureBlock(confidences, fzs[k], byVar, byMax));
    var blocks: seq<Matrix> := [];
    for k := 0 to |fzs|
      invariant |rs| == |fzs| && AllOk(rs, blocks, k)
    {
      var block := FeaturizerBlock(confidences, fzs[k], byVar, byMax);
      assert rs[k] == block;
      if block.Err? {
        CollectFirst(rs, k);
        return Err(block.error);
      }
      AllOkStep(rs, blocks, k);
      blocks := blocks + [block.value];
    }
    CollectAll(rs, blocks);
    r := Ok(blocks);
  }

  /** The inputs `run` trains on: the labels of every confidence and the assembled features. */
  method RunInputs<C>(confidences: seq<C>, fzs: seq<Featurizer<C>>, firstMistake: C -> int,
                      byVar: Normalizer, byMax: Normalizer)
      returns (labels: seq<bool>, features: Result<Matrix, CalibrationError>)
    ensures |labels| == |confidences|
    ensures forall i :: 0 <= i < |confidences| ==> (labels[i] <==> firstMistake(confidences[i]) == -1)
    ensures features.Err? <==> |fzs| == 0 || Blocks(confidences, fzs, byVar, byMax).Err?
    ensures features.Ok? ==> features.value == ConcatColumns(Blocks(confidences, fzs, byVar, byMax).value, |confidences|)
  {
    labels := DeriveLabels(confidences, firstMistake);
    features := AssembleFeatures(confidences, fzs, byVar, byMax);
  }

  // ---------------------------------------------------------------------------
  // The hyper-parameter search

  /** `itertools.product(max_depth, eta, num_round)` of `tune_and_train`. */
  function Grid(): (g: seq<Params>)
    ensures |g| == 28
  {
    ProductAt([3, 5, 7, 10, 20, 30, 50], [0.02, 0.1, 0.5, 0.7], [300], 0, 0, 0);
    Product([3, 5, 7, 10, 20, 30, 50], [0.02, 0.1, 0.5, 0.7], [300])
  }

  /** Every depth is tried with every step size, depth varying slowest. */
  lemma GridAt(i: nat, j: nat)
    requires i < 7 && j < 4
    ensures Grid()[4 * i + j] == Params([3, 5, 7, 10, 20, 30, 50][i], [0.02, 0.1, 0.5, 0.7][j], 300)
  {
    ProductAt([3, 5, 7, 10, 20, 30, 50], [0.02, 0.1, 0.5, 0.7], [300], i, j, 0);
  }

  /** A trained model with the evaluation `tune_and_train` keeps beside it. */
  datatype Trained<M, K> = Trained(model: M, confusion: K)

  /**
   * `tune_and_train`: train one model per grid point (`train` stands for
   * `xgb.train`, `bestScore` for `model.best_score`, `confusion` for the
   * confusion matrix on the dev set), keep the first with the highest score
   * above 0, and return it with its score, confusion matrix and parameters.
   */
  method TuneAndTrain<M, K>(train: Params -> M, bestScore: M -> real, confusion: M -> K)
      returns (model: Option<M>, score: real, matrix: Option<K>, params: Option<Params>)
    ensures model.None? <==> forall k :: 0 <= k < 28 ==> bestScore(train(Grid()[k])) <= 0.0
    ensures model.None? ==> matrix.None? && params.None? && score == 0.0
    ensures model.Some? ==> exists k: nat :: IsFirstBest(Ranked(Grid(), train, bestScore), k)
                                         && params == Some(Grid()[k]) && model == Some(train(Grid()[k]))
                                         && matrix == Some(confusion(train(Grid()[k])))
                                         && score == bestScore(train(Grid()[k]))
    ensures forall k :: 0 <= k < 28 ==> bestScore(train(Grid()[k])) <= score
  {
    var evaluate := (p: Params) => Trained(train(p), confusion(train(p)));
    var rank := (t: Trained<M, K>) => bestScore(t.model);
    var grid := Grid();
    var best;
    best, score := SelectFirstBest(grid, evaluate, rank);
    ghost var ranked, scores := Ranked(grid, evaluate, rank), Ranked(grid, train, bestScore);
    assert ranked == scores;
    if best.None? {
      model, matrix, params := None, None, None;
    } else {
      ghost var k: nat :| IsFirstBest(ranked, k) && best.value == (grid[k], evaluate(grid[k]));
      var (p, t) := best.value;
      model, matrix, params := Some(t.model), Some(t.confusion), Some(p);
      assert IsFirstBest(scores, k) && params == Some(grid[k]);
    }
  }

  // ---------------------------------------------------------------------------
  // Accuracy at pass rate

  /** `(confidence, label)`, compared as Python compares tuples (`False < True`). */
  type Scored = (real, bool)

  predicate Below(p: Scored, q: Scored)
  {
    p.0 < q.0 || (p.0 == q.0 && (!p.1 || q.1))
  }

  predicate SortedScored(s: seq<Scored>)
  {
    forall i, j :: 0 <= i < j < |s| ==> Below(s[i], s[j])
  }

  /** `zip(confidence_scores, labels)`: as long as the shorter input. */
  function Zip(scores: seq<real>, labels: seq<bool>): (z: seq<Scored>)
    ensures |z| == if |scores| < |labels| then |scores| else |labels|
    ensures forall i :: 0 <= i < |z| ==> z[i] == (scores[i], labels[i])
  {
    var n := if |scores| < |labels| then |scores| else |labels|;
    seq(n, i requires 0 <= i < n => (scores[i], labels[i]))
  }

  function Insert(x: Scored, s: seq<Scored>): (r: seq<Scored>)
    requires SortedScored(s)
    ensures SortedScored(r) && multiset(r) == multiset(s) + multiset{x}
  {
    if |s| == 0 then [x]
    else if Below(x, s[0]) then [x] + s
    else
      var rest := Insert(x, s[1..]);
      InsertBehind(x, s, rest);
      [s[0]] + rest
  }

  /** `!Below` is strict `Below` the other way round: the order is total. */
  lemma BelowTotal(p: Scored, q: Scored)
    ensures Below(p, q) || Below(q, p)
  {
  }

  /** The head stays first when `x` is inserted behind it. */
  lemma InsertBehind(x: Scored, s: seq<Scored>, rest: seq<Scored>)
    requires SortedScored(s) && |s| > 0 && !Below(x, s[0])
    requires SortedScored(rest) && multiset(rest) == multiset(s[1..]) + multiset{x}
    ensures SortedScored([s[0]] + rest)
    ensures multiset([s[0]] + rest) == multiset(s) + multiset{x}
  {
    BelowTotal(x, s[0]);
    forall j | 0 <= j < |rest| ensures Below(s[0], rest[j]) {
      assert rest[j] in multiset(rest);
      if rest[j] != x {
        assert rest[j] in multiset(s[1..]);
        var k :| 0 <= k < |s[1..]| && s[1..][k] == rest[j];
        assert s[k + 1] == rest[j];
      }
    }
    assert s == [s[0]] + s[1..];
  }

  /** `sorted(...)` over the pairs: the ordered arrangement of the same pairs. */
  function Sort(s: seq<Scored>): (r: seq<Scored>)
    ensures SortedScored(r) && multiset(r) == multiset(s)
  {
    if |s| == 0 then []
    else
      assert s == [s[0]] + s[1..];
      Insert(s[0], Sort(s[1..]))
  }

  /** How many pairs carry a positive label: `np.sum` of the integer labels. */
  function Positives(s: seq<Scored>): (n: nat)
    ensures n <= |s|
  {
    if |s| == 0 then 0 else (if s[0].1 then 1 else 0) + Positives(s[1..])
  }

  /**
   * `accuracy_at_pass_rate(labels, confidence_scores)`: sort the pairs,
   * then for every cut `i` the fraction kept, `(n - i) / n`, and the
   * fraction of positives among the kept, `sum(labels[i:]) / (n - i)`.
   */
  method AccuracyAtPassRate(labels: seq<bool>, scores: seq<real>)
      returns (r: Result<(seq<real>, seq<real>), CalibrationError>)
    ensures r.Err? <==> |Zip(scores, labels)| == 0
    ensures r.Err? ==> r.error == NothingToUnpack
    ensures r.Ok? ==> var (passRates, accuracies) := r.value; var sorted := Sort(Zip(scores, labels)); var n := |sorted|;
      && |passRates| == n && |accuracies| == n
      && (forall i :: 0 <= i < n ==> passRates[i] == (n - i) as real / n as real)
      && (forall i :: 0 <= i < n ==> accuracies[i] == Positives(sorted[i..]) as real / (n - i) as real)
  {
    var sorted := Sort(Zip(scores, labels));
    if |sorted| == 0 {
      return Err(NothingToUnpack);
    }
    var passRates, accuracies := Curve(sorted);
    r := Ok((passRates, accuracies));
  }

  /** The first `i` points of the curve are in place. */
  predicate CurveUpTo(sorted: seq<Scored>, passRates: seq<real>, accuracies: seq<real>, i: nat)
  {
    && i <= |sorted| && |passRates| == i == |accuracies|
    && (forall a :: 0 <= a < i ==> passRates[a] == (|sorted| - a) as real / |sorted| as real)
    && (forall a :: 0 <= a < i ==> accuracies[a] == Positives(sorted[a..]) as real / (|sorted| - a) as real)
  }

  lemma CurveStep(sorted: seq<Scored>, passRates: seq<real>, accuracies: seq<real>, i: nat)
    requires CurveUpTo(sorted, passRates, accuracies, i) && i < |sorted|
    ensures CurveUpTo(sorted, passRates + [(|sorted| - i) as real / |sorted| as real],
                      accuracies + [Positives(sorted[i..]) as real / (|sorted| - i) as real], i + 1)
  {
  }

  /** The loop of `accuracy_at_pass_rate` over the sorted pairs. */
  method Curve(sorted: seq<Scored>) returns (passRates: seq<real>, accuracies: seq<real>)
    requires |sorted| > 0
    ensures |passRates| == |sorted| && |accuracies| == |sorted|
    ensures forall i :: 0 <= i < |sorted| ==> passRates[i] == (|sorted| - i) as real / |sorted| as real
    ensures forall i :: 0 <= i < |sorted| ==> accuracies[i] == Positives(sorted[i..]) as real / (|sorted| - i) as real
  {
    var n := |sorted|;
    passRates, accuracies := [], [];
    for i := 0 to n
      invariant CurveUpTo(sorted, passRates, accuracies, i)
    {
      var passLabels := sorted[i..];
      var passRate := |passLabels| as real / n as real;
      var accuracy := Positives(passLabels) as real / |passLabels| as real;
      CurveStep(sorted, passRates, accuracies, i);
      passRates, accuracies := passRates + [passRate], accuracies + [accuracy];
    }
  }

  /** The curve starts at the full pass rate and every further cut passes strictly fewer. */
  lemma PassRatesDecrease(passRates: seq<real>)
    requires |passRates| > 0
    requires forall i :: 0 <= i < |passRates| ==> passRates[i] == (|passRates| - i) as real / |passRates| as real
    ensures passRates[0] == 1.0
    ensures forall i, j :: 0 <= i < j < |passRates| ==> passRates[j] < passRates[i]
  {
    var n := |passRates| as real;
    SelfFraction(n);
    forall i, j | 0 <= i < j < |passRates| ensures passRates[j] < passRates[i] {
      FractionMonotone((|passRates| - j) as real, (|passRates| - i) as real, n);
    }
  }

  lemma SelfFraction(n: real)
    requires n > 0.0
    ensures n / n == 1.0
  {
  }

  lemma FractionMonotone(a: real, b: real, n: real)
    requires a < b && n > 0.0
    ensures a / n < b / n
  {
  }

  lemma FractionBounded(p: real, m: real)
    requires 0.0 <= p <= m && m > 0.0
    ensures 0.0 <= p / m <= 1.0
  {
  }

  /** Every accuracy is a fraction of the kept pairs. */
  lemma AccuraciesBounded(sorted: seq<Scored>, accuracies: seq<real>)
    requires |accuracies| == |sorted|
    requires forall i :: 0 <= i < |sorted| ==> accuracies[i] == Positives(sorted[i..]) as real / (|sorted| - i) as real
    ensures forall i :: 0 <= i < |accuracies| ==> 0.0 <= accuracies[i] <= 1.0
  {
    forall i | 0 <= i < |accuracies| ensures 0.0 <= accuracies[i] <= 1.0 {
      FractionBounded(Positives(sorted[i..]) as real, (|sorted| - i) as real);
    }
  }

  /** Taking entry `k` out of a sequence takes one copy of it out of its multiset. */
  lemma MultisetRemove(b: seq<Scored>, k: nat)
    requires k < |b|
    ensures multiset(b) == multiset(b[..k] + b[k + 1..]) + multiset{b[k]}
  {
    assert b == b[..k] + [b[k]] + b[k + 1..];
  }

  /** Positives of a sequence, counted with entry `k` set apart. */
  lemma {:induction false} PositivesRemove(b: seq<Scored>, k: nat)
    requires k < |b|
    ensures Positives(b) == Positives(b[..k] + b[k + 1..]) + (if b[k].1 then 1 else 0)
  {
    if k == 0 {
      assert b[..0] + b[1..] == b[1..];
    } else {
      var rest := b[1..];
      PositivesRemove(rest, k - 1);
      assert b[..k] + b[k + 1..] == [b[0]] + (rest[..k - 1] + rest[k..]);
    }
  }

  /** Rearranging the pairs does not change how many are positive. */
  lemma {:induction false} PositivesPermutation(a: seq<Scored>, b: seq<Scored>)
    requires multiset(a) == multiset(b)
    ensures Positives(a) == Positives(b)
    decreases |a|
  {
    if |a| > 0 {
      assert a[0] in multiset(b);
      var k :| 0 <= k < |b| && b[k] == a[0];
      var rest := b[..k] + b[k + 1..];
      MultisetRemove(b, k);
      assert a == [a[0]] + a[1..];
      forall y ensures multiset(a[1..])[y] == multiset(rest)[y] {
        assert multiset(a)[y] == multiset(a[1..])[y] + multiset{a[0]}[y];
      }
      assert multiset(a[1..]) == multiset(rest);
      PositivesPermutation(a[1..], rest);
      PositivesRemove(b, k);
    }
  }

  /** At the full pass rate the accuracy is the share of positive labels, whatever the sort did. */
  lemma AccuracyAtFullPass(scores: seq<real>, labels: seq<bool>)
    requires |Zip(scores, labels)| > 0
    ensures Positives(Sort(Zip(scores, labels))[0..]) as real / |Zip(scores, labels)| as real
         == Positives(Zip(scores, labels)) as real / |Zip(scores, labels)| as real
  {
    var z := Zip(scores, labels);
    assert Sort(z)[0..] == Sort(z);
    PositivesPermutation(Sort(z), z);
  }
}
