/**
 * The stand-alone calibrator calibrate.py: zero-padded feature matrices,
 * the labels and the concatenated features of its entry point, and the
 * hyper-parameter search that keeps the most accurate model.
 */
module Calibrate {
  import opened Wrappers
  import opened CalibrationCommon

  /**
   * `pad_features(confidences, f)`: one row per confidence, as long as the
   * longest feature vector, the features first and zeros after them.
   */
  method PadFeatures<C>(confidences: seq<C>, f: C -> seq<real>) returns (r: Result<Matrix, CalibrationError>)
    ensures r.Err? <==> |confidences| == 0
    ensures r.Err? ==> r.error == EmptySequence
    ensures r.Ok? ==> r.value == Padded(Features(confidences, f), Num(0.0))
    ensures r.Ok? ==> && Rectangular(r.value) && NoNaN(r.value) && |r.value.rows| == |confidences|
                      && (forall i :: 0 <= i < |confidences| ==> |f(confidences[i])| <= r.value.width)
                      && (exists i :: 0 <= i < |confidences| && |f(confidences[i])| == r.value.width)
                      && (forall i, j :: 0 <= i < |confidences| && 0 <= j < |f(confidences[i])| ==>
                            r.value.rows[i][j] == Num(f(confidences[i])[j]))
                      && (forall i, j :: 0 <= i < |confidences| && |f(confidences[i])| <= j < r.value.width ==>
                            r.value.rows[i][j] == Num(0.0))
  {
    var padded := PadRows(confidences, f, Num(0.0));
    if padded.Err? {
      return Err(padded.error);
    }
    r := Ok(padded.value.0);
    ghost var vs := Features(confidences, f);
    assert exists i :: 0 <= i < |vs| && |vs[i]| == MaxLength(vs);
  }

  /** The matrix every featurizer contributes: its zero-padded features. */
  function ZeroPaddedBlocks<C>(confidences: seq<C>, featurizers: seq<C -> seq<real>>): (bs: seq<Matrix>)
    ensures |bs| == |featurizers| && AllRows(bs, |confidences|)
    ensures forall k :: 0 <= k < |featurizers| ==> bs[k] == Padded(Features(confidences, featurizers[k]), Num(0.0))
  {
    seq(|featurizers|, k requires 0 <= k < |featurizers| => Padded(Features(confidences, featurizers[k]), Num(0.0)))
  }

  /**
   * The entry point up to the split: the labels (`first_mistake + 1 == 0`)
   * and the features of all featurizers concatenated along the columns.
   */
  method LabelsAndFeatures<C>(confidences: seq<C>, featurizers: seq<C -> seq<real>>, firstMistake: C -> int)
      returns (labels: seq<bool>, features: Result<Matrix, CalibrationError>)
    ensures |labels| == |confidences|
    ensures forall i :: 0 <= i < |confidences| ==> (labels[i] <==> firstMistake(confidences[i]) == -1)
    ensures features.Err? <==> |confidences| == 0 || |featurizers| == 0
    ensures features.Err? ==> features.error == EmptySequence
    ensures features.Ok? ==> features.value == ConcatColumns(ZeroPaddedBlocks(confidences, featurizers), |confidences|)
    ensures features.Ok? ==> |features.value.rows| == |confidences|
                             && features.value.width == SumWidths(ZeroPaddedBlocks(confidences, featurizers))
  {
    labels := DeriveLabels(confidences, firstMistake);
    var blocks: seq<Matrix> := [];
    for k := 0 to |featurizers|
      invariant |blocks| == k && (k > 0 ==> |confidences| > 0)
      invariant forall a :: 0 <= a < k ==> blocks[a] == Padded(Features(confidences, featurizers[a]), Num(0.0))
    {
      var padded := PadFeatures(confidences, featurizers[k]);
      if padded.Err? {
        return labels, Err(padded.error);
      }
      blocks := blocks + [padded.value];
    }
    if |blocks| == 0 {
      return labels, Err(EmptySequence);
    }
    assert blocks == ZeroPaddedBlocks(confidences, featurizers);
    features := Ok(ConcatColumns(blocks, |confidences|));
  }

  /**
   * In the concatenated features, row `i` holds the features of featurizer
   * `k` after the widths of the featurizers before it, followed by zeros
   * up to that featurizer's width.
   */
  lemma FeatureCell<C>(confidences: seq<C>, featurizers: seq<C -> seq<real>>, k: nat, i: nat, j: nat)
    requires k < |featurizers| && i < |confidences|
    requires j < MaxLength(Features(confidences, featurizers[k]))
    ensures var bs := ZeroPaddedBlocks(confidences, featurizers);
      var m := ConcatColumns(bs, |confidences|);
      var v := featurizers[k](confidences[i]);
      && SumWidths(bs[..k]) + j < m.width
      && m.rows[i][SumWidths(bs[..k]) + j] == if j < |v| then Num(v[j]) else Num(0.0)
  {
    ConcatColumnsCell(ZeroPaddedBlocks(confidences, featurizers), |confidences|, k, i, j);
  }

  // ---------------------------------------------------------------------------
  // The hyper-parameter search

  /** `itertools.product(max_depth, eta, num_round)` of `tune_and_train`. */
  function Grid(): (g: seq<Params>)
    ensures |g| == 15
  {
    ProductAt([3, 5, 7, 10, 20], [0.1, 0.5, 0.7], [200], 0, 0, 0);
    Product([3, 5, 7, 10, 20], [0.1, 0.5, 0.7], [200])
  }

  /** Every depth is tried with every step size, depth varying slowest. */
  lemma GridAt(i: nat, j: nat)
    requires i < 5 && j < 3
    ensures Grid()[3 * i + j] == Params([3, 5, 7, 10, 20][i], [0.1, 0.5, 0.7][j], 200)
  {
    ProductAt([3, 5, 7, 10, 20], [0.1, 0.5, 0.7], [200], i, j, 0);
  }

  /**
   * `tune_and_train`: train one model per grid point (`train` stands for
   * `xgb.train`, `accuracy` for the dev-set accuracy of its rounded
   * predictions, `confusion` for its confusion matrix), keep the first with
   * the highest accuracy above 0, and return it with that accuracy and its
   * confusion matrix.
   */
  method TuneAndTrain<M, K>(train: Params -> M, accuracy: M -> real, confusion: M -> K)
      returns (model: Option<M>, bestAccuracy: real, matrix: Option<K>)
    ensures model.None? <==> forall k :: 0 <= k < 15 ==> accuracy(train(Grid()[k])) <= 0.0
    ensures model.None? ==> matrix.None? && bestAccuracy == 0.0
    ensures model.Some? ==> exists k: nat :: IsFirstBest(Ranked(Grid(), train, accuracy), k)
                                         && model == Some(train(Grid()[k]))
                                         && matrix == Some(confusion(train(Grid()[k])))
                                         && bestAccuracy == accuracy(train(Grid()[k]))
    ensures forall k :: 0 <= k < 15 ==> accuracy(train(Grid()[k])) <= bestAccuracy
  {
    var evaluate := (p: Params) => (train(p), confusion(train(p)));
    var rank := (t: (M, K)) => accuracy(t.0);
    var grid := Grid();
    var best;
    best, bestAccuracy := SelectFirstBest(grid, evaluate, rank);
    ghost var ranked, scores := Ranked(grid, evaluate, rank), Ranked(grid, train, accuracy);
    assert ranked == scores;
    if best.None? {
      model, matrix := None, None;
    } else {
      ghost var k: nat :| IsFirstBest(ranked, k) && best.value == (grid[k], evaluate(grid[k]));
      var (_, t) := best.value;
      model, matrix := Some(t.0), Some(t.1);
      assert IsFirstBest(scores, k);
    }
  }
}
