/**
 * `MQANDecoderWrapper`: the state the incremental decoder carries between
 * decoding steps. It holds the encoder outputs expanded for beam search, an
 * optional recurrent state, a step counter `time`, the last decoder output and,
 * with self-attention layers, one hidden buffer per layer (plus the input
 * layer) with a column per decoding step. Each step writes column `time` of
 * every buffer, layer by layer, and produces one pointer-mixture distribution
 * per row.
 */
module DecoderWrapper {
  import opened Wrappers
  import opened Tensors
  import opened PointerMixture

  type Vec = seq<real>

  /** One hidden buffer, indexed [row][time]. */
  type Buffer = seq<seq<Vec>>

  /**
   * Self-attention layer `l` for one row: the row's hidden vector at the
   * current step and the row's keys (its vectors at steps 0..time of layer `l`).
   */
  type Layer = (nat, nat, Vec, seq<Vec>) -> Vec

  function Add(a: Vec, b: Vec): (r: Vec)
    requires |a| == |b|
    ensures |r| == |a|
  {
    seq(|a|, i requires 0 <= i < |a| => a[i] + b[i])
  }

  function Zeros(n: nat): Vec
  {
    seq(n, _ => 0.0)
  }

  // ---------------------------------------------------------------------------
  // The hidden buffers as values

  /** All buffers have the same number of rows and every row has a column `time`. */
  predicate Fits(h: seq<Buffer>, time: nat)
  {
    && (forall l :: 0 <= l < |h| ==> |h[l]| == |h[0]|)
    && (forall l, i :: 0 <= l < |h| && 0 <= i < |h[l]| ==> time < |h[l][i]|)
  }

  /** `b[:, time] = col`. */
  function SetColumn(b: Buffer, time: nat, col: seq<Vec>): (r: Buffer)
    requires |col| == |b| && forall i :: 0 <= i < |b| ==> time < |b[i]|
    ensures |r| == |b|
    ensures forall i :: 0 <= i < |b| ==> |r[i]| == |b[i]| && r[i][time] == col[i]
    ensures forall i, t :: 0 <= i < |b| && 0 <= t < |b[i]| && t != time ==> r[i][t] == b[i][t]
  {
    seq(|b|, i requires 0 <= i < |b| => b[i][time := col[i]])
  }

  /** Column `time` of the input layer plus the scaled embedding of the current tokens. */
  function EmbedColumn(b0: Buffer, time: nat, embedding: seq<Vec>, scale: real): (col: seq<Vec>)
    requires |embedding| == |b0|
    requires forall i :: 0 <= i < |b0| ==> time < |b0[i]| && |b0[i][time]| == |embedding[i]|
    ensures |col| == |b0|
  {
    seq(|b0|, i requires 0 <= i < |b0| => Add(b0[i][time], Scaled(scale, embedding[i])))
  }

  /** Layer `l` applied to column `time` of the buffer below, with that buffer's columns 0..time as keys. */
  function LayerColumn(below: Buffer, l: nat, time: nat, layer: Layer): (col: seq<Vec>)
    requires forall i :: 0 <= i < |below| ==> time < |below[i]|
    ensures |col| == |below|
  {
    seq(|below|, i requires 0 <= i < |below| => layer(l, i, below[i][time], below[i][..time + 1]))
  }

  /** Buffers 1..n after the layer loop has run its first n iterations. */
  function RunLayers(h: seq<Buffer>, time: nat, layer: Layer, n: nat): (r: seq<Buffer>)
    requires n < |h| && Fits(h, time)
    ensures |r| == |h|
    ensures forall l :: 0 <= l < |h| ==> |r[l]| == |h[l]|
    ensures forall l, i :: 0 <= l < |h| && 0 <= i < |h[l]| ==> |r[l][i]| == |h[l][i]|
    decreases n
  {
    if n == 0 then h
    else
      var p := RunLayers(h, time, layer, n - 1);
      p[n := SetColumn(p[n], time, LayerColumn(p[n - 1], n - 1, time, layer))]
  }

  /** What the self-attention part of a step needs of the buffers and the embedding. */
  predicate StepReady(h: seq<Buffer>, time: nat, embedding: seq<Vec>)
  {
    && |h| > 0 && Fits(h, time) && |embedding| == |h[0]|
    && forall i :: 0 <= i < |h[0]| ==> |h[0][i][time]| == |embedding[i]|
  }

  /** The buffers after one step: the input column gets the embedding, then every layer in turn. */
  function StepBuffers(h: seq<Buffer>, time: nat, embedding: seq<Vec>, scale: real, layer: Layer): (r: seq<Buffer>)
    requires StepReady(h, time, embedding)
    ensures |r| == |h| && Fits(r, time)
    ensures forall l :: 0 <= l < |h| ==> |r[l]| == |h[l]|
    ensures forall l, i :: 0 <= l < |h| && 0 <= i < |h[l]| ==> |r[l][i]| == |h[l][i]|
  {
    var withInput := h[0 := SetColumn(h[0], time, EmbedColumn(h[0], time, embedding, scale))];
    RunLayers(withInput, time, layer, |h| - 1)
  }

  lemma {:induction false} RunLayersFrame(h: seq<Buffer>, time: nat, layer: Layer, n: nat)
    requires n < |h| && Fits(h, time)
    ensures RunLayers(h, time, layer, n)[0] == h[0]
    ensures forall l, i, t :: 0 <= l < |h| && 0 <= i < |h[l]| && 0 <= t < |h[l][i]| && t != time ==>
      RunLayers(h, time, layer, n)[l][i][t] == h[l][i][t]
    decreases n
  {
    if n > 0 {
      RunLayersFrame(h, time, layer, n - 1);
    }
  }

  lemma {:induction false} RunLayersAt(h: seq<Buffer>, time: nat, layer: Layer, n: nat, l: nat, i: nat)
    requires n < |h| && Fits(h, time) && 0 < l <= n && i < |h[l]|
    ensures var r := RunLayers(h, time, layer, n);
      i < |r[l - 1]| && r[l][i][time] == layer(l - 1, i, r[l - 1][i][time], r[l - 1][i][..time + 1])
    decreases n
  {
    var p := RunLayers(h, time, layer, n - 1);
    if l < n {
      RunLayersAt(h, time, layer, n - 1, l, i);
    }
  }

  /** A step changes nothing outside column `time`. */
  lemma StepOtherColumns(h: seq<Buffer>, time: nat, embedding: seq<Vec>, scale: real, layer: Layer)
    requires StepReady(h, time, embedding)
    ensures forall l, i, t :: 0 <= l < |h| && 0 <= i < |h[l]| && 0 <= t < |h[l][i]| && t != time ==>
      StepBuffers(h, time, embedding, scale, layer)[l][i][t] == h[l][i][t]
  {
    var withInput := h[0 := SetColumn(h[0], time, EmbedColumn(h[0], time, embedding, scale))];
    RunLayersFrame(withInput, time, layer, |h| - 1);
  }

  /** Column `time` of the input buffer gains sqrt(d_model) times the embedding. */
  lemma StepInputColumn(h: seq<Buffer>, time: nat, embedding: seq<Vec>, scale: real, layer: Layer, i: nat)
    requires StepReady(h, time, embedding) && i < |h[0]|
    ensures StepBuffers(h, time, embedding, scale, layer)[0][i][time] == Add(h[0][i][time], Scaled(scale, embedding[i]))
  {
    var withInput := h[0 := SetColumn(h[0], time, EmbedColumn(h[0], time, embedding, scale))];
    RunLayersFrame(withInput, time, layer, |h| - 1);
  }

  /**
   * Column `time` of buffer l + 1 is layer l applied to column `time` of
   * buffer l, with buffer l's columns 0..time (as they are after the step) as keys.
   */
  lemma StepLayerColumn(h: seq<Buffer>, time: nat, embedding: seq<Vec>, scale: real, layer: Layer, l: nat, i: nat)
    requires StepReady(h, time, embedding) && l + 1 < |h| && i < |h[0]|
    ensures var r := StepBuffers(h, time, embedding, scale, layer);
      r[l + 1][i][time] == layer(l, i, r[l][i][time], r[l][i][..time + 1])
  {
    var withInput := h[0 := SetColumn(h[0], time, EmbedColumn(h[0], time, embedding, scale))];
    RunLayersAt(withInput, time, layer, |h| - 1, l + 1, i);
  }

  /** Two buffer states agree on the columns before `time` and on the input column `time`. */
  predicate AgreeBefore(h: seq<Buffer>, g: seq<Buffer>, time: nat)
    requires |h| == |g| && Fits(h, time) && Fits(g, time)
  {
    && (forall l :: 0 <= l < |h| ==> |h[l]| == |g[l]|)
    && (forall l, i, t :: 0 <= l < |h| && 0 <= i < |h[l]| && i < |g[l]| && 0 <= t < time ==> h[l][i][t] == g[l][i][t])
    && (|h| > 0 ==> forall i :: 0 <= i < |h[0]| && i < |g[0]| ==> h[0][i][time] == g[0][i][time])
  }

  /** Column `time` of the top buffer is a function of the buffer below it, up to column `time`. */
  lemma RunLayersTopColumn(h: seq<Buffer>, g: seq<Buffer>, time: nat, layer: Layer, n: nat, i: nat)
    requires 0 < n < |h| && |h| == |g| && Fits(h, time) && Fits(g, time) && i < |h[n]| && i < |g[n]|
    requires var pa, pb := RunLayers(h, time, layer, n - 1), RunLayers(g, time, layer, n - 1);
      i < |pa[n - 1]| && i < |pb[n - 1]| && pa[n - 1][i][..time + 1] == pb[n - 1][i][..time + 1]
    ensures RunLayers(h, time, layer, n)[n][i][time] == RunLayers(g, time, layer, n)[n][i][time]
  {
    RunLayersAt(h, time, layer, n, n, i);
    RunLayersAt(g, time, layer, n, n, i);
  }

  /** Iteration n leaves buffers below n as iteration n - 1 left them. */
  lemma RunLayersKeepsLower(h: seq<Buffer>, time: nat, layer: Layer, n: nat, l: nat)
    requires 0 < n < |h| && Fits(h, time) && l < n
    ensures RunLayers(h, time, layer, n)[l] == RunLayers(h, time, layer, n - 1)[l]
  {
  }

  /** Cells the layer loop never writes agree when AgreeBefore holds. */
  lemma RunLayersCausalFixed(h: seq<Buffer>, g: seq<Buffer>, time: nat, layer: Layer, n: nat, l: nat, i: nat, t: nat)
    requires n < |h| && |h| == |g| && Fits(h, time) && Fits(g, time) && AgreeBefore(h, g, time)
    requires l <= n && i < |h[l]| && t <= time && (l == 0 || t < time)
    ensures var a, b := RunLayers(h, time, layer, n), RunLayers(g, time, layer, n);
      i < |b[l]| && a[l][i][t] == b[l][i][t]
  {
    RunLayersFrame(h, time, layer, n);
    RunLayersFrame(g, time, layer, n);
  }

  /** One cell of the causality argument: cell (l, i, t) with t <= time depends only on what AgreeBefore fixes. */
  lemma {:induction false} RunLayersCausalCell(h: seq<Buffer>, g: seq<Buffer>, time: nat, layer: Layer, n: nat, l: nat, i: nat, t: nat)
    requires n < |h| && |h| == |g| && Fits(h, time) && Fits(g, time) && AgreeBefore(h, g, time)
    requires l <= n && i < |h[l]| && t <= time
    ensures var a, b := RunLayers(h, time, layer, n), RunLayers(g, time, layer, n);
      i < |b[l]| && a[l][i][t] == b[l][i][t]
    decreases n, 1
  {
    if l == 0 || t < time {
      RunLayersCausalFixed(h, g, time, layer, n, l, i, t);
    } else if l < n {
      RunLayersCausalCell(h, g, time, layer, n - 1, l, i, t);
      RunLayersKeepsLower(h, time, layer, n, l);
      RunLayersKeepsLower(g, time, layer, n, l);
    } else {
      RunLayersCausalTop(h, g, time, layer, n, i);
    }
  }

  /** The cell iteration `n` writes, (n, i, time), agrees once the row below agrees up to `time`. */
  lemma {:induction false} RunLayersCausalTop(h: seq<Buffer>, g: seq<Buffer>, time: nat, layer: Layer, n: nat, i: nat)
    requires 0 < n < |h| && |h| == |g| && Fits(h, time) && Fits(g, time) && AgreeBefore(h, g, time)
    requires i < |h[n]|
    ensures var a, b := RunLayers(h, time, layer, n), RunLayers(g, time, layer, n);
      i < |b[n]| && a[n][i][time] == b[n][i][time]
    decreases n, 0
  {
    var below := n - 1;
    var pa, pb := RunLayers(h, time, layer, below), RunLayers(g, time, layer, below);
    var rowA, rowB := pa[below][i], pb[below][i];
    forall u | 0 <= u <= time
      ensures rowA[u] == rowB[u]
    {
      RunLayersCausalCell(h, g, time, layer, below, below, i, u);
    }
    assert rowA[..time + 1] == rowB[..time + 1];
    RunLayersTopColumn(h, g, time, layer, n, i);
  }

  /** Writing the embedding into the input column keeps two agreeing states in agreement. */
  lemma EmbedKeepsAgreement(h: seq<Buffer>, g: seq<Buffer>, time: nat, embedding: seq<Vec>, scale: real)
    requires StepReady(h, time, embedding) && StepReady(g, time, embedding) && |h| == |g|
    requires AgreeBefore(h, g, time)
    ensures var hi := h[0 := SetColumn(h[0], time, EmbedColumn(h[0], time, embedding, scale))];
      var gi := g[0 := SetColumn(g[0], time, EmbedColumn(g[0], time, embedding, scale))];
      Fits(hi, time) && Fits(gi, time) && AgreeBefore(hi, gi, time)
  {
  }

  /**
   * A step reads only columns 0..time: buffer states that agree before `time`
   * (and on the input column `time`) agree on columns 0..time after the step,
   * whatever the rest of their columns hold.
   */
  lemma StepCausal(h: seq<Buffer>, g: seq<Buffer>, time: nat, embedding: seq<Vec>, scale: real, layer: Layer)
    requires StepReady(h, time, embedding) && StepReady(g, time, embedding) && |h| == |g|
    requires AgreeBefore(h, g, time)
    ensures var a, b := StepBuffers(h, time, embedding, scale, layer), StepBuffers(g, time, embedding, scale, layer);
      forall l, i, t :: 0 <= l < |a| && 0 <= i < |a[l]| && 0 <= t <= time ==> i < |b[l]| && a[l][i][t] == b[l][i][t]
  {
    var hi := h[0 := SetColumn(h[0], time, EmbedColumn(h[0], time, embedding, scale))];
    var gi := g[0 := SetColumn(g[0], time, EmbedColumn(g[0], time, embedding, scale))];
    EmbedKeepsAgreement(h, g, time, embedding, scale);
    var a, b := RunLayers(hi, time, layer, |h| - 1), RunLayers(gi, time, layer, |h| - 1);
    forall l, i, t | 0 <= l < |a| && 0 <= i < |a[l]| && 0 <= t <= time
      ensures i < |b[l]| && a[l][i][t] == b[l][i][t]
    {
      RunLayersCausalCell(hi, gi, time, layer, |h| - 1, l, i, t);
    }
  }

  /** Buffer states with the same shape and the same cells are equal. */
  lemma BuffersEqual(a: seq<Buffer>, b: seq<Buffer>)
    requires |a| == |b| && forall l :: 0 <= l < |a| ==> |a[l]| == |b[l]|
    requires forall l, r :: 0 <= l < |a| && 0 <= r < |a[l]| ==> |a[l][r]| == |b[l][r]|
    requires forall l, r, t :: 0 <= l < |a| && 0 <= r < |a[l]| && 0 <= t < |a[l][r]| ==> a[l][r][t] == b[l][r][t]
    ensures a == b
  {
    forall l | 0 <= l < |a| ensures a[l] == b[l] {
      forall r | 0 <= r < |a[l]| ensures a[l][r] == b[l][r] {
      }
    }
  }

  // ---------------------------------------------------------------------------
  // The encoder outputs the wrapper carries

  /** The seven batch-major tensors the wrapper keeps from the encoder. */
  datatype Encoded = Encoded(
    selfAttendedContext: State<real>,  // one tensor per self-attention layer
    context: Nd<real>,
    contextPadding: Nd<bool>,
    question: Nd<real>,
    questionPadding: Nd<bool>,
    contextIndices: Nd<int>,
    questionIndices: Nd<int>)

  /**
   * Self-attention layer `l` as the wrapper calls it: besides the row's hidden
   * vector and keys it sees the encoder outputs the wrapper holds (the
   * self-attended context of layer `l` and the context padding), addressed
   * by row `i`.
   */
  type AttentionLayer = (nat, Encoded, nat, Vec, seq<Vec>) -> Vec

  /** The layer with the encoder outputs `e` fixed: what one step's columns are computed with. */
  function WithEncoder(layer: AttentionLayer, e: Encoded): (bound: Layer)
    ensures forall l, i, h, keys :: bound(l, i, h, keys) == layer(l, e, i, h, keys)
  {
    (l: nat, i: nat, h: Vec, keys: seq<Vec>) => layer(l, e, i, h, keys)
  }

  /** Every tensor has `n` rows (extent `n` along dimension 0). */
  predicate EncodedSized(e: Encoded, n: nat)
  {
    && StateSized(e.selfAttendedContext, 0, n)
    && Sized(e.context, 0, n) && Sized(e.contextPadding, 0, n)
    && Sized(e.question, 0, n) && Sized(e.questionPadding, 0, n)
    && Sized(e.contextIndices, 0, n) && Sized(e.questionIndices, 0, n)
  }

  /** Every tensor can be expanded along dimension 0. */
  predicate EncodedHasDim(e: Encoded)
  {
    && StateHasDim(e.selfAttendedContext, 0)
    && e.context.Arr? && e.contextPadding.Arr? && e.question.Arr? && e.questionPadding.Arr?
    && e.contextIndices.Arr? && e.questionIndices.Arr?
  }

  /** `order` indexes every tensor along dimension 0. */
  predicate EncodedIndexableBy(e: Encoded, order: seq<nat>)
  {
    && StateIndexableBy(e.selfAttendedContext, order, 0)
    && IndexableBy(e.context, order, 0) && IndexableBy(e.contextPadding, order, 0)
    && IndexableBy(e.question, order, 0) && IndexableBy(e.questionPadding, order, 0)
    && IndexableBy(e.contextIndices, order, 0) && IndexableBy(e.questionIndices, order, 0)
  }

  /** Every row of `b` is a row of `a`: `b` only repeats rows. */
  ghost predicate RowsFrom<T>(a: Nd<T>, b: Nd<T>)
  {
    a.Arr? && b.Arr? && forall x :: x in b.items ==> x in a.items
  }

  /** The constructor's seven `expand_for_beam_search` calls. */
  function ExpandEncoded(e: Encoded, k: nat): (r: Encoded)
    requires EncodedHasDim(e)
    ensures SameShape(e.selfAttendedContext, r.selfAttendedContext)
    ensures && RowsFrom(e.context, r.context) && RowsFrom(e.contextPadding, r.contextPadding)
            && RowsFrom(e.question, r.question) && RowsFrom(e.questionPadding, r.questionPadding)
            && RowsFrom(e.contextIndices, r.contextIndices) && RowsFrom(e.questionIndices, r.questionIndices)
  {
    Encoded(ExpandState(e.selfAttendedContext, k, 0),
            Expand(e.context, k, 0), Expand(e.contextPadding, k, 0),
            Expand(e.question, k, 0), Expand(e.questionPadding, k, 0),
            Expand(e.contextIndices, k, 0), Expand(e.questionIndices, k, 0))
  }

  /** The seven `reorder_for_beam_search` calls at the head of `reorder`. */
  function ReorderEncoded(e: Encoded, order: seq<nat>): (r: Encoded)
    requires EncodedIndexableBy(e, order)
    ensures SameShape(e.selfAttendedContext, r.selfAttendedContext)
    ensures EncodedSized(r, |order|)
  {
    Encoded(ReorderState(e.selfAttendedContext, order, 0),
            Reorder(e.context, order, 0), Reorder(e.contextPadding, order, 0),
            Reorder(e.question, order, 0), Reorder(e.questionPadding, order, 0),
            Reorder(e.contextIndices, order, 0), Reorder(e.questionIndices, order, 0))
  }

  /** Expanding `n` rows by `k` gives `n * k` rows in every tensor. */
  lemma ExpandEncodedSized(e: Encoded, k: nat, n: nat)
    requires EncodedSized(e, n)
    ensures EncodedHasDim(e)
    ensures EncodedSized(ExpandEncoded(e, k), n * k)
  {
    ExpandStateShape(e.selfAttendedContext, k, 0, n);
    ExpandSized(e.context, k, 0, n);
    ExpandSized(e.contextPadding, k, 0, n);
    ExpandSized(e.question, k, 0, n);
    ExpandSized(e.questionPadding, k, 0, n);
    ExpandSized(e.contextIndices, k, 0, n);
    ExpandSized(e.questionIndices, k, 0, n);
  }

  /** An in-range order can be applied, and the result has `|order|` rows. */
  lemma ReorderEncodedSized(e: Encoded, order: seq<nat>, n: nat)
    requires EncodedSized(e, n)
    requires forall j :: 0 <= j < |order| ==> order[j] < n
    ensures EncodedIndexableBy(e, order)
    ensures EncodedSized(ReorderEncoded(e, order), |order|)
  {
    ReorderStateShape(e.selfAttendedContext, order, 0, n);
    SizedIndexable(e.context, order, 0, n);
    SizedIndexable(e.contextPadding, order, 0, n);
    SizedIndexable(e.question, order, 0, n);
    SizedIndexable(e.questionPadding, order, 0, n);
    SizedIndexable(e.contextIndices, order, 0, n);
    SizedIndexable(e.questionIndices, order, 0, n);
  }

  /** Reordering by the identity permutation changes nothing. */
  lemma ReorderEncodedIdentity(e: Encoded, n: nat)
    requires EncodedSized(e, n)
    ensures EncodedIndexableBy(e, Range(n))
    ensures ReorderEncoded(e, Range(n)) == e
  {
    ReorderStateIdentity(e.selfAttendedContext, 0, n);
    ReorderIdentity(e.context, 0, n);
    ReorderIdentity(e.contextPadding, 0, n);
    ReorderIdentity(e.question, 0, n);
    ReorderIdentity(e.questionPadding, 0, n);
    ReorderIdentity(e.contextIndices, 0, n);
    ReorderIdentity(e.questionIndices, 0, n);
  }

  // ---------------------------------------------------------------------------
  // The recurrent state under `reorder`

  datatype StepError =
    | TimeOutOfRange   // `hiddens[0][:, time]` with time >= max_decoder_time
    | ShapeMismatch    // a tensor operation on incompatible shapes
    | IndexOutOfRange  // `t[new_order]` with an index past the rows
    | NotATensor       // `reorder_for_beam_search(None, ...)`: None has no `shape`

  /** `reorder_for_beam_search(self.rnn_state, new_order, dim=1)` as written: None is not handled. */
  function ReorderRnnAsWritten(rnn: Option<State<real>>, order: seq<nat>): (r: Result<Option<State<real>>, StepError>)
    ensures rnn.None? ==> r == Err(NotATensor)
    ensures rnn.Some? && StateIndexableBy(rnn.value, order, 1) ==> r == Ok(Some(ReorderState(rnn.value, order, 1)))
    ensures rnn.Some? && !StateIndexableBy(rnn.value, order, 1) ==> r == Err(IndexOutOfRange)
  {
    if rnn.None? then Err(NotATensor)
    else if StateIndexableBy(rnn.value, order, 1) then Ok(Some(ReorderState(rnn.value, order, 1)))
    else Err(IndexOutOfRange)
  }

  /** The recurrent state reordered along the batch dimension (1), with an absent state left absent. */
  function ReorderRnn(rnn: Option<State<real>>, order: seq<nat>): (r: Result<Option<State<real>>, StepError>)
    ensures r.Ok? <==> rnn.None? || StateIndexableBy(rnn.value, order, 1)
    ensures rnn.None? ==> r == Ok(None)
    ensures r.Ok? && rnn.Some? ==> r.value == Some(ReorderState(rnn.value, order, 1))
  {
    if rnn.None? then Ok(None)
    else if StateIndexableBy(rnn.value, order, 1) then Ok(Some(ReorderState(rnn.value, order, 1)))
    else Err(IndexOutOfRange)
  }

  /** The wrapper built without a recurrent state cannot be reordered as written; the corrected version can. */
  lemma ReorderWithoutRnnState()
    ensures ReorderRnnAsWritten(None, [0]).Err?
    ensures ReorderRnn(None, [0]) == Ok(None)
  {
  }

  /** Wherever the code as written succeeds, it agrees with the corrected version. */
  lemma ReorderRnnAgrees(rnn: Option<State<real>>, order: seq<nat>)
    ensures ReorderRnnAsWritten(rnn, order).Ok? ==> ReorderRnn(rnn, order) == ReorderRnnAsWritten(rnn, order)
    ensures rnn.Some? ==> ReorderRnn(rnn, order) == ReorderRnnAsWritten(rnn, order)
  {
  }

  /** The buffers at construction: positional encodings in the input buffer, zeros in the others. */
  function InitialBuffers(count: nat, rows: nat, columns: nat, positional: seq<Vec>, dim: nat): (h: seq<Buffer>)
    ensures |h| == count
    ensures forall l :: 0 <= l < count ==> |h[l]| == rows
    ensures forall l, r :: 0 <= l < count && 0 <= r < rows ==> |h[l][r]| == columns
    ensures forall l, r, t :: 0 <= l < count && 0 <= r < rows && 0 <= t < columns ==>
      h[l][r][t] == if l == 0 && t < |positional| then positional[t] else Zeros(dim)
  {
    seq(count, l => seq(rows, r => seq(columns, t => if l == 0 && 0 <= t < |positional| then positional[t] else Zeros(dim))))
  }

  // ---------------------------------------------------------------------------
  // The wrapper

  datatype Config = Config(
    transformerLayers: nat,
    rnnLayers: nat,
    dimension: nat,             // d_model
    generativeVocabSize: nat)

  /** What the recurrent/attention part of a step hands back. */
  datatype StepOutputs = StepOutputs(
    decoderOutput: Nd<real>,
    rnnState: State<real>,
    heads: seq<HeadInputs>)   // one per row: p_vocab, both gates, both attentions

  /**
   * The recurrent decoder (or the two attention modules) for one step: the
   * decoded vectors of the current step, the previous decoder output, the
   * recurrent state, and the encoder outputs (context, question and their
   * padding masks) the wrapper holds.
   */
  type Neural = (seq<Vec>, Option<Nd<real>>, Option<State<real>>, Encoded) -> StepOutputs

  /** The index tensor is a matrix of cells: one row of vocabulary indices per batch row. */
  predicate IsMatrix(t: Nd<int>)
  {
    t.Arr? && forall r :: 0 <= r < |t.items| ==>
      t.items[r].Arr? && forall j :: 0 <= j < |t.items[r].items| ==> t.items[r].items[j].Cell?
  }

  function IndexRows(t: Nd<int>): (m: seq<seq<int>>)
    requires IsMatrix(t)
    ensures |m| == |t.items|
    ensures forall r :: 0 <= r < |m| ==> |m[r]| == |t.items[r].items|
  {
    seq(|t.items|, r requires 0 <= r < |t.items| =>
      seq(|t.items[r].items|, j requires 0 <= j < |t.items[r].items| => t.items[r].items[j].v))
  }

  /** The heads fit the index matrices: one head per row and every index inside the output width. */
  predicate HeadsFit(heads: seq<HeadInputs>, contextIndices: Nd<int>, questionIndices: Nd<int>, generative: nat, vocabSize: nat)
  {
    && IsMatrix(contextIndices) && IsMatrix(questionIndices)
    && |heads| == |contextIndices.items| == |questionIndices.items|
    && forall r :: 0 <= r < |heads| ==>
      WellFormed(heads[r], IndexRows(contextIndices)[r], IndexRows(questionIndices)[r], generative, vocabSize)
  }

  /** Row `r` of the result is the pointer mixture of head `r`. */
  function BatchMixture(heads: seq<HeadInputs>, contextIndices: Nd<int>, questionIndices: Nd<int>,
                        generative: nat, vocabSize: nat, epsilon: real): (p: seq<seq<real>>)
    requires HeadsFit(heads, contextIndices, questionIndices, generative, vocabSize)
    ensures |p| == |heads|
  {
    seq(|heads|, r requires 0 <= r < |heads| =>
      Mixture(heads[r], IndexRows(contextIndices)[r], IndexRows(questionIndices)[r], generative, vocabSize, epsilon))
  }

  /** `b[:, time]`: of the top buffer, the self-attended decoding of the current step. */
  function Column(b: Buffer, time: nat): (col: seq<Vec>)
    requires forall i :: 0 <= i < |b| ==> time < |b[i]|
    ensures |col| == |b|
  {
    seq(|b|, i requires 0 <= i < |b| => b[i][time])
  }

  class MQANDecoderWrapper {
    const config: Config
    const decoderVocabSize: nat     // len(decoder_vocab)
    const batchSize: nat
    const expansion: nat            // expansion_factor
    const maxDecoderTime: nat
    const epsilon: real             // EPSILON, the floor probability
    /** hiddens[l, row, time]; the first dimension is empty without self-attention layers. */
    const hiddens: array3<Vec>
    /** The hidden buffers as values: `buffers[l][row][time] == hiddens[l, row, time]`. */
    ghost var buffers: seq<Buffer>

    var encoded: Encoded
    var rnnState: Option<State<real>>
    var time: nat
    var decoderOutput: Option<Nd<real>>

    function Rows(): nat
    {
      batchSize * expansion
    }

    function Layers(): nat
    {
      config.transformerLayers
    }

    ghost predicate Valid()
      reads this, hiddens
    {
      EncodedSized(encoded, Rows()) && Shaped() && Mirrors() && InputWidths()
    }

    /** One buffer per layer plus the input buffer, each `Rows()` by `maxDecoderTime`. */
    predicate Shaped()
    {
      && hiddens.Length0 == (if Layers() > 0 then Layers() + 1 else 0)
      && hiddens.Length1 == Rows()
      && hiddens.Length2 == maxDecoderTime
    }

    /** `buffers` has the shape of `hiddens` and the same cells. */
    ghost predicate Mirrors()
      reads this, hiddens
    {
      && |buffers| == hiddens.Length0
      && (forall l :: 0 <= l < |buffers| ==> |buffers[l]| == hiddens.Length1)
      && (forall l, r :: 0 <= l < |buffers| && 0 <= r < |buffers[l]| ==> |buffers[l][r]| == hiddens.Length2)
      && (forall l, r, t :: 0 <= l < hiddens.Length0 && 0 <= r < hiddens.Length1 && 0 <= t < hiddens.Length2 ==>
            buffers[l][r][t] == hiddens[l, r, t])
    }

    /** The input buffer holds vectors of width d_model. */
    ghost predicate InputWidths()
      reads this
    {
      forall r, t :: 0 < |buffers| && 0 <= r < |buffers[0]| && 0 <= t < |buffers[0][r]| ==>
        |buffers[0][r][t]| == config.dimension
    }

    /** Self-attention layers are present, there is room for column `time`, and the embedding fits it. */
    ghost predicate CanStep(embedding: seq<Vec>)
      reads this
    {
      Layers() == 0 ||
      (time < maxDecoderTime && |embedding| == Rows() &&
       forall i :: 0 <= i < |embedding| ==> |embedding[i]| == config.dimension)
    }

    constructor(encoder: Encoded, decoderVocabSize: nat, rnnState: Option<State<real>>, batchSize: nat,
                maxDecoderTime: nat, config: Config, expansion: nat, epsilon: real, positional: seq<Vec>)
      requires EncodedSized(encoder, batchSize)
      requires rnnState.Some? ==> StateHasDim(rnnState.value, 1)
      requires config.transformerLayers > 0 ==>
        |positional| == maxDecoderTime && forall t :: 0 <= t < |positional| ==> |positional[t]| == config.dimension
      ensures Valid() && fresh(hiddens)
      ensures this.config == config && this.decoderVocabSize == decoderVocabSize && this.epsilon == epsilon
      ensures this.batchSize == batchSize && this.expansion == expansion && this.maxDecoderTime == maxDecoderTime
      ensures EncodedHasDim(encoder) && encoded == ExpandEncoded(encoder, expansion)
      ensures this.rnnState == (if rnnState.Some? then Some(ExpandState(rnnState.value, expansion, 1)) else None)
      ensures time == 0 && decoderOutput == None
      ensures forall l, r, t :: 0 <= l < |buffers| && 0 <= r < Rows() && 0 <= t < maxDecoderTime ==>
        buffers[l][r][t] == (if l == 0 then positional[t] else Zeros(config.dimension))
    {
      this.config := config;
      this.decoderVocabSize := decoderVocabSize;
      this.batchSize := batchSize;
      this.expansion := expansion;
      this.maxDecoderTime := maxDecoderTime;
      this.epsilon := epsilon;
      ExpandEncodedSized(encoder, expansion, batchSize);
      encoded := ExpandEncoded(encoder, expansion);
      this.rnnState := if rnnState.Some? then Some(ExpandState(rnnState.value, expansion, 1)) else None;
      time := 0;
      decoderOutput := None;
      var count := if config.transformerLayers > 0 then config.transformerLayers + 1 else 0;
      var rows := batchSize * expansion;
      var dim := config.dimension;
      // the input buffer starts as the positional encodings, the others as zeros
      hiddens := new Vec[count, rows, maxDecoderTime](
        (l, r, t) => if l == 0 && 0 <= t < |positional| then positional[t] else Zeros(dim));
      buffers := InitialBuffers(count, rows, maxDecoderTime, positional, dim);
    }

    /**
     * `reorder(new_order)`: every encoder tensor and the recurrent state take
     * row `order[j]` as row `j`; a failing recurrent reorder leaves the
     * encoder tensors already reordered, as the sequence of assignments does.
     */
    method Reorder(order: seq<nat>) returns (r: Result<(), StepError>)
      requires Valid() && |order| == Rows()
      modifies this`encoded, this`rnnState
      ensures Valid()
      ensures (exists j :: 0 <= j < |order| && order[j] >= Rows()) ==>
        r == Err(IndexOutOfRange) && encoded == old(encoded) && rnnState == old(rnnState)
      ensures (forall j :: 0 <= j < |order| ==> order[j] < Rows()) ==>
        && EncodedIndexableBy(old(encoded), order)
        && encoded == ReorderEncoded(old(encoded), order)
        && match ReorderRnn(old(rnnState), order)
           case Ok(state) => r == Ok(()) && rnnState == state
           case Err(e) => r == Err(e) && rnnState == old(rnnState)
    {
      if exists j :: 0 <= j < |order| && order[j] >= Rows() {
        return Err(IndexOutOfRange);
      }
      ReorderEncodedSized(encoded, order, Rows());
      encoded := ReorderEncoded(encoded, order);
      match ReorderRnn(rnnState, order)
      case Ok(state) =>
        rnnState := state;
        r := Ok(());
      case Err(e) =>
        r := Err(e);
    }

    /** `hiddens[l][:, time] = col`. */
    method WriteColumn(l: nat, col: seq<Vec>)
      requires Mirrors() && l < hiddens.Length0 && |col| == hiddens.Length1 && time < hiddens.Length2
      modifies this`buffers, hiddens
      ensures Mirrors()
      ensures buffers == old(buffers)[l := SetColumn(old(buffers)[l], time, col)]
    {
      forall r | 0 <= r < hiddens.Length1 {
        hiddens[l, r, time] := col[r];
      }
      buffers := buffers[l := SetColumn(buffers[l], time, col)];
    }

    /** `hiddens[0][:, time] += sqrt(d_model) * embedding`, with `scale` standing for the square root. */
    method AddEmbedding(embedding: seq<Vec>, scale: real)
      requires Shaped() && Mirrors() && InputWidths() && Layers() > 0 && CanStep(embedding)
      modifies this`buffers, hiddens
      ensures Mirrors() && InputWidths()
      ensures StepReady(old(buffers), time, embedding)
      ensures buffers == old(buffers)[0 := SetColumn(old(buffers)[0], time, EmbedColumn(old(buffers)[0], time, embedding, scale))]
    {
      ghost var col := EmbedColumn(buffers[0], time, embedding, scale);
      forall i | 0 <= i < hiddens.Length1 {
        hiddens[0, i, time] := Add(hiddens[0, i, time], Scaled(scale, embedding[i]));
      }
      buffers := buffers[0 := SetColumn(buffers[0], time, col)];
    }

    /**
     * `layers[l](hiddens[l][:, time], self_attended_context[l], selfattn_keys=hiddens[l][:, :time + 1],
     * context_padding=...)`, row by row, with the encoder outputs the wrapper holds now.
     */
    method LayerOutputs(l: nat, layer: AttentionLayer) returns (col: seq<Vec>)
      requires Mirrors() && l < hiddens.Length0 && time < hiddens.Length2
      ensures col == LayerColumn(buffers[l], l, time, WithEncoder(layer, encoded))
    {
      var rows := hiddens.Length1;
      var t := time;
      var e := encoded;
      col := seq(rows, i requires 0 <= i < rows reads hiddens =>
        layer(l, e, i, hiddens[l, i, t], seq(t + 1, u requires 0 <= u <= t reads hiddens => hiddens[l, i, u])));
      forall i | 0 <= i < rows
        ensures buffers[l][i][..t + 1] == seq(t + 1, u requires 0 <= u <= t reads hiddens => hiddens[l, i, u])
      {
      }
    }

    /** `buffers` is where the layer loop gets from `h` after its first `l` iterations. */
    ghost predicate Reached(h: seq<Buffer>, layer: Layer, l: nat)
      reads this
    {
      l < |h| && Fits(h, time) && buffers == RunLayers(h, time, layer, l)
    }

    /**
     * `hiddens[l + 1][:, time] = layers[l](hiddens[l][:, time], ...)`: iteration
     * `l` of the layer loop.
     */
    method ApplyLayer(l: nat, layer: AttentionLayer, ghost h: seq<Buffer>)
      requires Mirrors() && l + 1 < hiddens.Length0 && time < hiddens.Length2 && l + 1 < |h|
      requires Reached(h, WithEncoder(layer, encoded), l)
      modifies this`buffers, hiddens
      ensures Mirrors() && Reached(h, WithEncoder(layer, encoded), l + 1)
    {
      var col := LayerOutputs(l, layer);
      WriteColumn(l + 1, col);
    }

    /** The loop over the self-attention layers. */
    method RunLayerLoop(layer: AttentionLayer)
      requires Shaped() && Mirrors() && Layers() > 0 && time < maxDecoderTime
      modifies this`buffers, hiddens
      ensures Mirrors() && Reached(old(buffers), WithEncoder(layer, encoded), Layers())
    {
      ghost var h := buffers;
      var l, n := 0, Layers();
      while l < n
        invariant l <= n == |h| - 1 && Mirrors() && Reached(h, WithEncoder(layer, encoded), l)
      {
        ApplyLayer(l, layer, h);
        l := l + 1;
      }
    }

    /** `hiddens[l][:, time]`. */
    method ReadColumn(l: nat) returns (col: seq<Vec>)
      requires Mirrors() && l < hiddens.Length0 && time < hiddens.Length2
      ensures col == Column(buffers[l], time)
    {
      var rows := hiddens.Length1;
      var t := time;
      col := seq(rows, i requires 0 <= i < rows reads hiddens => hiddens[l, i, t]);
    }

    /**
     * The self-attention part of a step: add the embedding to the input
     * column, run every layer on column `time`, and read the top column.
     */
    method SelfAttend(embedding: seq<Vec>, scale: real, layer: AttentionLayer) returns (decoded: seq<Vec>)
      requires Shaped() && Mirrors() && InputWidths() && Layers() > 0 && CanStep(embedding)
      modifies this`buffers, hiddens
      ensures Mirrors() && InputWidths() && StepReady(old(buffers), time, embedding)
      ensures buffers == StepBuffers(old(buffers), time, embedding, scale, WithEncoder(layer, encoded))
      ensures decoded == Column(buffers[Layers()], time)
    {
      AddEmbedding(embedding, scale);
      ghost var h := buffers;
      RunLayerLoop(layer);
      RunLayersFrame(h, time, WithEncoder(layer, encoded), Layers());
      decoded := ReadColumn(Layers());
    }

    /**
     * The rest of a step, after the decoder input is known: the recurrent and
     * attention part (`neural`), then the pointer mixture of every row.
     */
    method Decode(decoded: seq<Vec>, neural: Neural) returns (r: Result<seq<seq<real>>, StepError>)
      modifies this`decoderOutput, this`rnnState, this`time
      ensures
        var out := neural(decoded, old(decoderOutput), old(rnnState), encoded);
        && decoderOutput == Some(out.decoderOutput)
        && rnnState == (if config.rnnLayers > 0 then Some(out.rnnState) else old(rnnState))
        && if HeadsFit(out.heads, encoded.contextIndices, encoded.questionIndices, config.generativeVocabSize, decoderVocabSize)
           then r == Ok(BatchMixture(out.heads, encoded.contextIndices, encoded.questionIndices,
                                     config.generativeVocabSize, decoderVocabSize, epsilon))
                && time == old(time) + 1
           else r == Err(ShapeMismatch) && time == old(time)
    {
      var out := neural(decoded, decoderOutput, rnnState, encoded);
      decoderOutput := Some(out.decoderOutput);
      if config.rnnLayers > 0 {
        rnnState := Some(out.rnnState);
      }
      if !HeadsFit(out.heads, encoded.contextIndices, encoded.questionIndices, config.generativeVocabSize, decoderVocabSize) {
        return Err(ShapeMismatch);
      }
      var probs := BatchProbs(out.heads, IndexRows(encoded.contextIndices), IndexRows(encoded.questionIndices),
                              config.generativeVocabSize, decoderVocabSize, epsilon);
      assert probs == BatchMixture(out.heads, encoded.contextIndices, encoded.questionIndices,
                                   config.generativeVocabSize, decoderVocabSize, epsilon);
      time := time + 1;
      r := Ok(probs);
    }

    /**
     * One decoding step (`next_token_probs`): write column `time` of every
     * hidden buffer, run the recurrent/attention part on the top column, and
     * mix the pointer distribution of every row.
     */
    method NextTokenProbs(embedding: seq<Vec>, scale: real, layer: AttentionLayer, neural: Neural)
        returns (r: Result<seq<seq<real>>, StepError>)
      requires Valid()
      modifies this, hiddens
      ensures Valid()
      ensures encoded == old(encoded)
      ensures Layers() > 0 && old(time) >= maxDecoderTime ==> r == Err(TimeOutOfRange)
      ensures !old(CanStep(embedding)) ==> r.Err? && unchanged(this) && unchanged(hiddens)
      ensures old(CanStep(embedding)) && Layers() > 0 ==>
        buffers == StepBuffers(old(buffers), old(time), embedding, scale, WithEncoder(layer, encoded))
      ensures Layers() == 0 ==> unchanged(hiddens) && buffers == old(buffers)
      ensures old(CanStep(embedding)) ==>
        var decoded := if Layers() > 0 then Column(buffers[Layers()], old(time)) else embedding;
        var out := neural(decoded, old(decoderOutput), old(rnnState), encoded);
        && decoderOutput == Some(out.decoderOutput)
        && rnnState == (if config.rnnLayers > 0 then Some(out.rnnState) else old(rnnState))
        && if HeadsFit(out.heads, encoded.contextIndices, encoded.questionIndices, config.generativeVocabSize, decoderVocabSize)
           then r == Ok(BatchMixture(out.heads, encoded.contextIndices, encoded.questionIndices,
                                     config.generativeVocabSize, decoderVocabSize, epsilon))
                && time == old(time) + 1
           else r == Err(ShapeMismatch) && time == old(time)
    {
      var decoded: seq<Vec>;
      if Layers() > 0 {
        if time >= maxDecoderTime {
          return Err(TimeOutOfRange);
        }
        if !(|embedding| == Rows() && forall i :: 0 <= i < |embedding| ==> |embedding[i]| == config.dimension) {
          return Err(ShapeMismatch);
        }
        decoded := SelfAttend(embedding, scale, layer);
      } else {
        decoded := embedding;
      }
      r := Decode(decoded, neural);
    }
  }
}
