/**
 * The index bookkeeping of `MQANDecoder.forward`: teacher forcing in training
 * (the decoder reads the answer without its last token and is scored against
 * the vocabulary-limited answer without its first), the entity-feature slices
 * handed to the embedding, and the inputs of one inference step. Tensors are
 * nested sequences indexed [batch][time] or [batch][time][feature].
 */
module Decoder {
  import opened Wrappers

  type Tensor3 = seq<seq<seq<int>>>

  /** `batch.answer.feature`: a floating-point tensor [batch][time][feature]. */
  type FeatureTensor = seq<seq<seq<real>>>

  /** Python's `x[:-1]`: everything but the last element; an empty sequence stays empty. */
  function DropLast<T>(xs: seq<T>): (r: seq<T>)
    ensures |r| == if |xs| == 0 then 0 else |xs| - 1
    ensures forall i :: 0 <= i < |r| ==> r[i] == xs[i]
  {
    if |xs| == 0 then [] else xs[..|xs| - 1]
  }

  /** Python's `x[1:]`: everything but the first element; an empty sequence stays empty. */
  function DropFirst<T>(xs: seq<T>): (r: seq<T>)
    ensures |r| == if |xs| == 0 then 0 else |xs| - 1
    ensures forall i :: 0 <= i < |r| ==> r[i] == xs[i + 1]
  {
    if |xs| == 0 then [] else xs[1..]
  }

  /** `x[:, :-1]`: every row loses its last time step (the decoder's inputs). */
  function TeacherInputs<T>(rows: seq<seq<T>>): (r: seq<seq<T>>)
    ensures |r| == |rows|
    ensures forall b :: 0 <= b < |r| ==> |r[b]| == if |rows[b]| == 0 then 0 else |rows[b]| - 1
    ensures forall b, i :: 0 <= b < |r| && 0 <= i < |r[b]| ==> r[b][i] == rows[b][i]
  {
    seq(|rows|, b requires 0 <= b < |rows| => DropLast(rows[b]))
  }

  /** `answer_limited[:, 1:]`: every row loses its first time step (the targets). */
  function TeacherTargets(rows: seq<seq<int>>): (r: seq<seq<int>>)
    ensures |r| == |rows|
    ensures forall b :: 0 <= b < |r| ==> |r[b]| == if |rows[b]| == 0 then 0 else |rows[b]| - 1
    ensures forall b, i :: 0 <= b < |r| && 0 <= i < |r[b]| ==> r[b][i] == rows[b][i + 1]
  {
    seq(|rows|, b requires 0 <= b < |rows| => DropFirst(rows[b]))
  }

  /**
   * Teacher forcing: when the answer and its vocabulary-limited copy have the
   * same shape, inputs and targets have the same shape, and at every input
   * position i, including the last, the decoder reads answer token i and is
   * scored against the limited token i + 1.
   */
  lemma TeacherForcingShift(answer: seq<seq<int>>, answerLimited: seq<seq<int>>)
    requires |answer| == |answerLimited|
    requires forall b :: 0 <= b < |answer| ==> |answer[b]| == |answerLimited[b]|
    ensures |TeacherInputs(answer)| == |TeacherTargets(answerLimited)|
    ensures forall b :: 0 <= b < |answer| ==> |TeacherInputs(answer)[b]| == |TeacherTargets(answerLimited)[b]|
    ensures forall b, i :: 0 <= b < |answer| && 0 <= i < |TeacherInputs(answer)[b]| ==>
      && i + 1 < |answer[b]|
      && TeacherInputs(answer)[b][i] == answer[b][i]
      && TeacherTargets(answerLimited)[b][i] == answerLimited[b][i + 1]
  {
  }

  /** `tensor == pad_idx`: which positions hold padding. */
  function PaddingMask(rows: seq<seq<int>>, padIdx: int): (r: seq<seq<bool>>)
    ensures |r| == |rows|
    ensures forall b :: 0 <= b < |r| ==> |r[b]| == |rows[b]|
    ensures forall b, t :: 0 <= b < |r| && 0 <= t < |r[b]| ==> (r[b][t] <==> rows[b][t] == padIdx)
  {
    seq(|rows|, b requires 0 <= b < |rows| =>
      seq(|rows[b]|, t requires 0 <= t < |rows[b]| => rows[b][t] == padIdx))
  }

  function Clamp(n: nat, len: nat): nat
  {
    if n < len then n else len
  }

  /** Python's `f[lo:hi]` on a feature vector, bounds clamped to its length as Python does. */
  function Slice<T>(f: seq<T>, lo: nat, hi: nat): (r: seq<T>)
    ensures lo <= hi <= |f| ==> |r| == hi - lo
    ensures |r| <= |f|
    ensures forall i :: 0 <= i < |r| ==> lo + i < |f| && r[i] == f[lo + i]
  {
    var a, b := Clamp(lo, |f|), Clamp(hi, |f|);
    if a <= b then f[a..b] else []
  }

  /** `feature[:, :, lo:hi]`: the same slice of every feature vector. */
  function SliceFeatures<T>(feature: seq<seq<seq<T>>>, lo: nat, hi: nat): (r: seq<seq<seq<T>>>)
    ensures |r| == |feature|
    ensures forall b :: 0 <= b < |r| ==> |r[b]| == |feature[b]|
    ensures forall b, t :: 0 <= b < |r| && 0 <= t < |r[b]| ==> r[b][t] == Slice(feature[b][t], lo, hi)
  {
    seq(|feature|, b requires 0 <= b < |feature| =>
      seq(|feature[b]|, t requires 0 <= t < |feature[b]| => Slice(feature[b][t], lo, hi)))
  }

  /** `x.long()` on one value: the integer part, truncated toward zero. */
  function Long(x: real): (n: int)
    ensures 0.0 <= x ==> 0 <= n && n as real <= x < n as real + 1.0
    ensures x < 0.0 ==> n <= 0 && n as real - 1.0 < x <= n as real
    ensures x == x.Floor as real ==> n == x.Floor   // an integral id survives unchanged
  {
    if 0.0 <= x then x.Floor else -((-x).Floor)
  }

  /** `t.long()` on a whole tensor, cell by cell. */
  function LongTensor(t: FeatureTensor): (r: Tensor3)
    ensures |r| == |t|
    ensures forall b :: 0 <= b < |r| ==> |r[b]| == |t[b]|
    ensures forall b, i :: 0 <= b < |r| && 0 <= i < |r[b]| ==> |r[b][i]| == |t[b][i]|
    ensures forall b, i, k :: 0 <= b < |r| && 0 <= i < |r[b]| && 0 <= k < |r[b][i]| ==> r[b][i][k] == Long(t[b][i][k])
  {
    seq(|t|, b requires 0 <= b < |t| =>
      seq(|t[b]|, i requires 0 <= i < |t[b]| =>
        seq(|t[b][i]|, k requires 0 <= k < |t[b][i]| => Long(t[b][i][k]))))
  }

  /** `(ids != default).int()`: 1 where an entity is present, 0 where the default fills the slot. */
  function EntityMask(ids: Tensor3, default: int): (r: Tensor3)
    ensures |r| == |ids|
    ensures forall b :: 0 <= b < |r| ==> |r[b]| == |ids[b]|
    ensures forall b, t :: 0 <= b < |r| && 0 <= t < |r[b]| ==> |r[b][t]| == |ids[b][t]|
    ensures forall b, t, k :: 0 <= b < |r| && 0 <= t < |r[b]| && 0 <= k < |r[b][t]| ==>
      (r[b][t][k] == 1 <==> ids[b][t][k] != default) && (r[b][t][k] == 0 <==> ids[b][t][k] == default)
  {
    seq(|ids|, b requires 0 <= b < |ids| =>
      seq(|ids[b]|, t requires 0 <= t < |ids[b]| =>
        seq(|ids[b][t]|, k requires 0 <= k < |ids[b][t]| => if ids[b][t][k] != default then 1 else 0)))
  }

  /** The entity tensors of the answer; each is `None` when the configuration does not ask for it. */
  datatype EntityFeatures = EntityFeatures(ids: Option<Tensor3>, mask: Option<Tensor3>, probs: Option<Tensor3>)

  /** Configuration the training branch reads. */
  datatype EntityConfig = EntityConfig(
    numDbTypes: nat,
    aggMethod: string,   // entity_type_agg_method
    idWidth: nat,        // features_size[0]
    probWidth: nat,      // features_size[1]
    defaultId: int)      // features_default_val[0]

  /**
   * Entity ids are the first `idWidth` feature columns, truncated to integers,
   * when there are database types; their mask marks non-default ids; and the
   * entity probabilities are the next `probWidth` columns, truncated to
   * integers as well, only under weighted aggregation.
   */
  function AnswerEntityFeatures(feature: FeatureTensor, c: EntityConfig): (r: EntityFeatures)
    ensures r.ids.Some? <==> c.numDbTypes > 0
    ensures r.mask.Some? <==> c.numDbTypes > 0
    ensures r.probs.Some? <==> c.numDbTypes > 0 && c.aggMethod == "weighted"
    ensures r.ids.Some? ==> r.ids.value == LongTensor(SliceFeatures(feature, 0, c.idWidth)) &&
                            r.mask.value == EntityMask(r.ids.value, c.defaultId)
    ensures r.probs.Some? ==> r.probs.value == LongTensor(SliceFeatures(feature, c.idWidth, c.idWidth + c.probWidth))
  {
    if c.numDbTypes == 0 then EntityFeatures(None, None, None)
    else
      var ids := LongTensor(SliceFeatures(feature, 0, c.idWidth));
      var probs := if c.aggMethod == "weighted"
                   then Some(LongTensor(SliceFeatures(feature, c.idWidth, c.idWidth + c.probWidth)))
                   else None;
      EntityFeatures(Some(ids), Some(EntityMask(ids, c.defaultId)), probs)
  }

  /** What the decoder embedding receives in training. */
  datatype EmbedInputs = EmbedInputs(
    tokens: seq<seq<int>>,
    entityIds: Option<Tensor3>,
    entityMask: Option<Tensor3>,
    entityProbs: Option<Tensor3>,
    padding: seq<seq<bool>>)

  /** Slicing `None` raises a `TypeError` in Python. */
  datatype ForwardError = NoneNotSubscriptable

  function DropLastStep(t: Option<Tensor3>): (r: Option<Tensor3>)
    ensures r.Some? <==> t.Some?
    ensures r.Some? ==> r.value == TeacherInputs(t.value)
  {
    match t
    case None => None
    case Some(v) => Some(TeacherInputs(v))
  }

  /**
   * The embedding call as written: it slices all three entity tensors
   * unconditionally, so it fails whenever one of them was left `None`.
   */
  function EmbedInputsAsWritten(answer: seq<seq<int>>, padIdx: int, f: EntityFeatures): (r: Result<EmbedInputs, ForwardError>)
    ensures r.Ok? <==> f.ids.Some? && f.mask.Some? && f.probs.Some?
  {
    if f.ids.None? || f.mask.None? || f.probs.None? then Err(NoneNotSubscriptable)
    else Ok(EmbedInputs(TeacherInputs(answer), Some(TeacherInputs(f.ids.value)), Some(TeacherInputs(f.mask.value)),
                        Some(TeacherInputs(f.probs.value)), TeacherInputs(PaddingMask(answer, padIdx))))
  }

  /**
   * The embedding inputs with absent entity tensors passed on as `None`:
   * every present tensor loses its last time step in lockstep with the tokens.
   */
  function EmbedInputsFor(answer: seq<seq<int>>, padIdx: int, f: EntityFeatures): (r: EmbedInputs)
    ensures r.entityIds.Some? <==> f.ids.Some?
    ensures r.entityMask.Some? <==> f.mask.Some?
    ensures r.entityProbs.Some? <==> f.probs.Some?
  {
    EmbedInputs(TeacherInputs(answer), DropLastStep(f.ids), DropLastStep(f.mask), DropLastStep(f.probs),
                TeacherInputs(PaddingMask(answer, padIdx)))
  }

  /**
   * Without database types (or without weighted aggregation) the training
   * branch as written always fails, while the corrected inputs exist.
   */
  lemma EmbedAsWrittenFailsWithoutEntities(answer: seq<seq<int>>, padIdx: int, feature: FeatureTensor, c: EntityConfig)
    requires c.numDbTypes == 0 || c.aggMethod != "weighted"
    ensures EmbedInputsAsWritten(answer, padIdx, AnswerEntityFeatures(feature, c)).Err?
    ensures EmbedInputsFor(answer, padIdx, AnswerEntityFeatures(feature, c)).entityProbs.None?
  {
  }

  /** With every entity tensor present, the corrected inputs are exactly what the source builds. */
  lemma EmbedInputsAgree(answer: seq<seq<int>>, padIdx: int, f: EntityFeatures)
    requires f.ids.Some? && f.mask.Some? && f.probs.Some?
    ensures EmbedInputsAsWritten(answer, padIdx, f) == Ok(EmbedInputsFor(answer, padIdx, f))
  {
  }

  /**
   * Position i of every embedding input describes answer position i: its token,
   * its padding flag and, when present, its entity ids, mask and probabilities.
   */
  lemma EmbedInputsAligned(answer: seq<seq<int>>, padIdx: int, feature: FeatureTensor, c: EntityConfig, b: nat, i: nat)
    requires |feature| == |answer| && b < |answer| && |feature[b]| == |answer[b]| && i + 1 < |answer[b]|
    ensures var e := EmbedInputsFor(answer, padIdx, AnswerEntityFeatures(feature, c));
      && e.tokens[b][i] == answer[b][i]
      && (e.padding[b][i] <==> answer[b][i] == padIdx)
      && (e.entityIds.Some? ==> e.entityIds.value[b][i] == LongTensor(SliceFeatures(feature, 0, c.idWidth))[b][i])
      && (e.entityMask.Some? ==> e.entityMask.value[b][i] == EntityMask(LongTensor(SliceFeatures(feature, 0, c.idWidth)), c.defaultId)[b][i])
      && (e.entityProbs.Some? ==> e.entityProbs.value[b][i] == LongTensor(SliceFeatures(feature, c.idWidth, c.idWidth + c.probWidth))[b][i])
  {
    var f := AnswerEntityFeatures(feature, c);
    var e := EmbedInputsFor(answer, padIdx, f);
    assert e.tokens[b][i] == answer[b][i];
    assert e.padding[b][i] == PaddingMask(answer, padIdx)[b][i];
    if c.numDbTypes > 0 {
      var ids := LongTensor(SliceFeatures(feature, 0, c.idWidth));
      assert |ids[b]| == |answer[b]|;
      assert e.entityIds.value[b][i] == ids[b][i];
      assert |EntityMask(ids, c.defaultId)[b]| == |answer[b]|;
      assert e.entityMask.value[b][i] == EntityMask(ids, c.defaultId)[b][i];
      if c.aggMethod == "weighted" {
        var probs := LongTensor(SliceFeatures(feature, c.idWidth, c.idWidth + c.probWidth));
        assert |probs[b]| == |answer[b]|;
        assert e.entityProbs.value[b][i] == probs[b][i];
      }
    }
  }

  /**
   * Entity probabilities are fractions, and `.long()` truncates them: every
   * probability below 1 reaches the embedding as 0.
   */
  lemma EntityProbsTruncated(feature: FeatureTensor, c: EntityConfig)
    requires c.numDbTypes > 0 && c.aggMethod == "weighted"
    requires forall b, t, k ::
      (0 <= b < |feature| && 0 <= t < |feature[b]| && c.idWidth <= k < c.idWidth + c.probWidth && k < |feature[b][t]|)
      ==> 0.0 <= feature[b][t][k] < 1.0
    ensures var p := AnswerEntityFeatures(feature, c).probs;
      p.Some? && forall b, t, k :: 0 <= b < |p.value| && 0 <= t < |p.value[b]| && 0 <= k < |p.value[b][t]| ==> p.value[b][t][k] == 0
  {
    var p := LongTensor(SliceFeatures(feature, c.idWidth, c.idWidth + c.probWidth));
    forall b, t, k | 0 <= b < |p| && 0 <= t < |p[b]| && 0 <= k < |p[b][t]|
      ensures p[b][t][k] == 0
    {
      assert SliceFeatures(feature, c.idWidth, c.idWidth + c.probWidth)[b][t][k] == feature[b][t][c.idWidth + k];
    }
  }

  // ---------------------------------------------------------------------------
  // Inference

  /**
   * The token ids fed to one decoding step: the first step (no wrapper yet)
   * uses them as given, later steps map them back to the full vocabulary.
   */
  function StepTokens(hasWrapper: bool, tokens: seq<seq<int>>, mapToFull: int -> int): (r: seq<seq<int>>)
    ensures |r| == |tokens|
    ensures forall b :: 0 <= b < |r| ==> |r[b]| == |tokens[b]|
    ensures !hasWrapper ==> r == tokens
    ensures hasWrapper ==> forall b, t :: 0 <= b < |r| && 0 <= t < |r[b]| ==> r[b][t] == mapToFull(tokens[b][t])
  {
    if !hasWrapper then tokens
    else seq(|tokens|, b requires 0 <= b < |tokens| =>
           seq(|tokens[b]|, t requires 0 <= t < |tokens[b]| => mapToFull(tokens[b][t])))
  }

  /** `new_full([*size, width], default)`: entity ids of the step, all equal to the default. */
  function StepEntityIds(tokens: seq<seq<int>>, width: nat, default: int): (r: Tensor3)
    ensures |r| == |tokens|
    ensures forall b :: 0 <= b < |r| ==> |r[b]| == |tokens[b]|
    ensures forall b, t :: 0 <= b < |r| && 0 <= t < |r[b]| ==> |r[b][t]| == width
    ensures forall b, t, k :: 0 <= b < |r| && 0 <= t < |r[b]| && 0 <= k < |r[b][t]| ==> r[b][t][k] == default
  {
    seq(|tokens|, b requires 0 <= b < |tokens| =>
      seq(|tokens[b]|, t requires 0 <= t < |tokens[b]| => seq(width, _ => default)))
  }

  /** At inference every entity slot holds the default, so the entity mask is all zeros. */
  lemma StepEntityMaskZero(tokens: seq<seq<int>>, width: nat, default: int)
    ensures var m := EntityMask(StepEntityIds(tokens, width, default), default);
      && |m| == |tokens|
      && (forall b :: 0 <= b < |m| ==> |m[b]| == |tokens[b]|)
      && (forall b, t :: 0 <= b < |m| && 0 <= t < |m[b]| ==> |m[b][t]| == width)
      && (forall b, t, k :: 0 <= b < |m| && 0 <= t < |m[b]| && 0 <= k < |m[b][t]| ==> m[b][t][k] == 0)
  {
  }
}
