/**
 * The pointer-generator output distribution of `MQANDecoder.probs` for one
 * decoding position: the vocabulary distribution scaled by the vocabulary
 * gate, padded with a small floor up to the batch-local vocabulary width, into
 * which the gated context-copy and question-copy attentions are scatter-added.
 * Softmax, the output projection and the sigmoid gates are not modelled: their
 * results are the inputs here.
 */
module PointerMixture {

  /** What the neural head hands to `probs` for one position of one row. */
  datatype HeadInputs = HeadInputs(
    pVocab: seq<real>,       // softmax over the generative vocabulary
    vocabGate: real,         // vocab_pointer_switch
    copyGate: real,          // context_question_switch
    contextAttn: seq<real>,  // attention over the context tokens
    questionAttn: seq<real>) // attention over the question tokens

  function Sum(s: seq<real>): real
  {
    if |s| == 0 then 0.0 else Sum(s[..|s| - 1]) + s[|s| - 1]
  }

  function Scaled(c: real, s: seq<real>): seq<real>
  {
    seq(|s|, i requires 0 <= i < |s| => c * s[i])
  }

  /** Width of the output: the decoder vocabulary's length when it exceeds the generative one. */
  function Width(generative: nat, vocabSize: nat): (w: nat)
    ensures w >= generative && w >= vocabSize
    ensures w == generative || w == vocabSize
  {
    if generative < vocabSize then vocabSize else generative
  }

  predicate InRange(idx: seq<int>, n: nat)
  {
    forall i :: 0 <= i < |idx| ==> 0 <= idx[i] < n
  }

  /**
   * `scatter_add_` along the last dimension: add `src[i]` to cell `idx[i]`, in
   * index order; repeated indices accumulate.
   */
  function ScatterAdd(base: seq<real>, idx: seq<int>, src: seq<real>): (r: seq<real>)
    requires |idx| == |src| && InRange(idx, |base|)
    ensures |r| == |base|
  {
    ScatterAddUpTo(base, idx, src, |idx|)
  }

  /** The buffer after the first `n` entries of `idx` and `src` have been added. */
  function ScatterAddUpTo(base: seq<real>, idx: seq<int>, src: seq<real>, n: nat): (r: seq<real>)
    requires n <= |idx| == |src| && InRange(idx, |base|)
    ensures |r| == |base|
  {
    if n == 0 then base
    else
      var prev := ScatterAddUpTo(base, idx, src, n - 1);
      prev[idx[n - 1] := prev[idx[n - 1]] + src[n - 1]]
  }

  /** The total that the entries of `src` aimed at cell `j` carry. */
  function Contribution(idx: seq<int>, src: seq<real>, j: int): real
    requires |idx| == |src|
  {
    if |idx| == 0 then 0.0
    else
      var n := |idx| - 1;
      Contribution(idx[..n], src[..n], j) + (if idx[n] == j then src[n] else 0.0)
  }

  /** Cells before the copy distributions are added: gate times p_vocab, then the floor. */
  function Base(h: HeadInputs, generative: nat, vocabSize: nat, epsilon: real): (r: seq<real>)
    requires |h.pVocab| == generative
    ensures |r| == Width(generative, vocabSize)
  {
    Scaled(h.vocabGate, h.pVocab) +
    (if generative < vocabSize then Floor(vocabSize - generative, epsilon) else [])
  }

  /** The `EPSILON` buffer appended for vocabulary entries the generator cannot produce. */
  function Floor(n: nat, epsilon: real): seq<real>
  {
    seq(n, _ => epsilon)
  }

  /** Weight of the context copy distribution: copy gate times (1 - vocabulary gate). */
  function ContextWeight(h: HeadInputs): real
  {
    h.copyGate * (1.0 - h.vocabGate)
  }

  /** Weight of the question copy distribution: (1 - copy gate) times (1 - vocabulary gate). */
  function QuestionWeight(h: HeadInputs): real
  {
    (1.0 - h.copyGate) * (1.0 - h.vocabGate)
  }

  /** Shapes `probs` needs; an index out of range makes `scatter_add_` raise. */
  predicate WellFormed(h: HeadInputs, contextIdx: seq<int>, questionIdx: seq<int>, generative: nat, vocabSize: nat)
  {
    && |h.pVocab| == generative
    && |contextIdx| == |h.contextAttn|
    && |questionIdx| == |h.questionAttn|
    && InRange(contextIdx, Width(generative, vocabSize))
    && InRange(questionIdx, Width(generative, vocabSize))
  }

  /** The distribution `probs` returns, as a function of its inputs. */
  function Mixture(h: HeadInputs, contextIdx: seq<int>, questionIdx: seq<int>,
                   generative: nat, vocabSize: nat, epsilon: real): (r: seq<real>)
    requires WellFormed(h, contextIdx, questionIdx, generative, vocabSize)
    ensures |r| == Width(generative, vocabSize)
  {
    ScatterAdd(ScatterAdd(Base(h, generative, vocabSize, epsilon), contextIdx, Scaled(ContextWeight(h), h.contextAttn)),
               questionIdx, Scaled(QuestionWeight(h), h.questionAttn))
  }

  /**
   * `probs` as the source computes it: build the gated and padded buffer, then
   * scatter-add the two copy distributions into it in place.
   */
  method Probs(h: HeadInputs, contextIdx: seq<int>, questionIdx: seq<int>,
               generative: nat, vocabSize: nat, epsilon: real) returns (p: seq<real>)
    requires WellFormed(h, contextIdx, questionIdx, generative, vocabSize)
    ensures p == Mixture(h, contextIdx, questionIdx, generative, vocabSize, epsilon)
  {
    var width := Width(generative, vocabSize);
    var gate := h.vocabGate;
    var pv := h.pVocab;
    var scaled := new real[width](i requires 0 <= i < width => if i < generative then gate * pv[i] else epsilon);
    ghost var base := Base(h, generative, vocabSize, epsilon);
    assert scaled[..] == base;

    ScatterAddInPlace(scaled, contextIdx, Scaled(ContextWeight(h), h.contextAttn));
    ScatterAddInPlace(scaled, questionIdx, Scaled(QuestionWeight(h), h.questionAttn));
    p := scaled[..];
  }

  /** `probs` over a batch: row `r` mixes head `r` with row `r` of the index matrices. */
  method BatchProbs(heads: seq<HeadInputs>, contextIdx: seq<seq<int>>, questionIdx: seq<seq<int>>,
                    generative: nat, vocabSize: nat, epsilon: real) returns (p: seq<seq<real>>)
    requires |contextIdx| == |heads| && |questionIdx| == |heads|
    requires forall r :: 0 <= r < |heads| ==> WellFormed(heads[r], contextIdx[r], questionIdx[r], generative, vocabSize)
    ensures |p| == |heads|
    ensures forall r :: 0 <= r < |heads| ==>
      p[r] == Mixture(heads[r], contextIdx[r], questionIdx[r], generative, vocabSize, epsilon)
  {
    p := [];
    var r := 0;
    while r < |heads|
      invariant r <= |heads| && |p| == r
      invariant forall q :: 0 <= q < r ==>
        p[q] == Mixture(heads[q], contextIdx[q], questionIdx[q], generative, vocabSize, epsilon)
    {
      var row := Probs(heads[r], contextIdx[r], questionIdx[r], generative, vocabSize, epsilon);
      p := p + [row];
      r := r + 1;
    }
  }

  /** `Tensor.scatter_add_` on one row: the buffer is updated in place, entry by entry. */
  method ScatterAddInPlace(a: array<real>, idx: seq<int>, src: seq<real>)
    requires |idx| == |src| && InRange(idx, a.Length)
    modifies a
    ensures a[..] == ScatterAdd(old(a[..]), idx, src)
  {
    ghost var base := a[..];
    var i := 0;
    while i < |idx|
      invariant 0 <= i <= |idx|
      invariant a[..] == ScatterAddUpTo(base, idx, src, i)
    {
      a[idx[i]] := a[idx[i]] + src[i];
      i := i + 1;
    }
  }

  // ---------------------------------------------------------------------------
  // Sums

  lemma {:induction false} SumConcat(a: seq<real>, b: seq<real>)
    ensures Sum(a + b) == Sum(a) + Sum(b)
    decreases |b|
  {
    if |b| > 0 {
      var n := |b| - 1;
      assert (a + b)[..|a + b| - 1] == a + b[..n];
      SumConcat(a, b[..n]);
    } else {
      assert a + b == a;
    }
  }

  lemma {:induction false} SumScaled(c: real, s: seq<real>)
    ensures Sum(Scaled(c, s)) == c * Sum(s)
  {
    if |s| > 0 {
      var n := |s| - 1;
      assert forall i :: 0 <= i < n ==> Scaled(c, s)[..n][i] == Scaled(c, s[..n])[i];
      assert Scaled(c, s)[..n] == Scaled(c, s[..n]);
      SumScaled(c, s[..n]);
      calc {
        Sum(Scaled(c, s));
        c * Sum(s[..n]) + c * s[n];
        c * (Sum(s[..n]) + s[n]);
      }
    }
  }

  lemma {:induction false} SumConst(n: nat, e: real)
    ensures Sum(Floor(n, e)) == n as real * e
  {
    if n > 0 {
      assert Floor(n, e)[..n - 1] == Floor(n - 1, e);
      SumConst(n - 1, e);
    }
  }

  /** Adding `x` to one cell adds `x` to the total. */
  lemma {:induction false} SumUpdate(s: seq<real>, k: nat, x: real)
    requires k < |s|
    ensures Sum(s[k := s[k] + x]) == Sum(s) + x
  {
    var n := |s| - 1;
    var t := s[k := s[k] + x];
    if k < n {
      assert t[..n] == s[..n][k := s[k] + x];
      SumUpdate(s[..n], k, x);
    } else {
      assert t[..n] == s[..n];
    }
  }

  lemma ProductNonNegative(a: real, b: real)
    requires a >= 0.0 && b >= 0.0
    ensures a * b >= 0.0
  {
  }

  lemma ScaledNonNegative(c: real, s: seq<real>)
    requires c >= 0.0 && forall i :: 0 <= i < |s| ==> s[i] >= 0.0
    ensures forall i :: 0 <= i < |s| ==> Scaled(c, s)[i] >= 0.0
  {
    forall i | 0 <= i < |s|
      ensures Scaled(c, s)[i] >= 0.0
    {
      ProductNonNegative(c, s[i]);
    }
  }

  // ---------------------------------------------------------------------------
  // Scatter-add

  /** Cell `j` after the scatter-add holds its old value plus every contribution aimed at it. */
  lemma ScatterAddAt(base: seq<real>, idx: seq<int>, src: seq<real>, j: nat)
    requires |idx| == |src| && InRange(idx, |base|) && j < |base|
    ensures ScatterAdd(base, idx, src)[j] == base[j] + Contribution(idx, src, j)
  {
    ScatterAddUpToAt(base, idx, src, |idx|, j);
    assert idx[..|idx|] == idx && src[..|src|] == src;
  }

  lemma {:induction false} ScatterAddUpToAt(base: seq<real>, idx: seq<int>, src: seq<real>, n: nat, j: nat)
    requires n <= |idx| == |src| && InRange(idx, |base|) && j < |base|
    ensures ScatterAddUpTo(base, idx, src, n)[j] == base[j] + Contribution(idx[..n], src[..n], j)
  {
    if n > 0 {
      ScatterAddUpToAt(base, idx, src, n - 1, j);
      assert idx[..n][..n - 1] == idx[..n - 1] && src[..n][..n - 1] == src[..n - 1];
    }
  }

  /** A cell that no index names keeps its value. */
  lemma {:induction false} ContributionAbsent(idx: seq<int>, src: seq<real>, j: int)
    requires |idx| == |src| && j !in idx
    ensures Contribution(idx, src, j) == 0.0
  {
    if |idx| > 0 {
      var n := |idx| - 1;
      assert forall x :: x in idx[..n] ==> x in idx;
      ContributionAbsent(idx[..n], src[..n], j);
    }
  }

  lemma {:induction false} ContributionNonNegative(idx: seq<int>, src: seq<real>, j: int)
    requires |idx| == |src| && forall i :: 0 <= i < |src| ==> src[i] >= 0.0
    ensures Contribution(idx, src, j) >= 0.0
  {
    if |idx| > 0 {
      var n := |idx| - 1;
      ContributionNonNegative(idx[..n], src[..n], j);
    }
  }

  /** Scatter-adding moves the whole mass of `src` into the buffer, duplicates included. */
  lemma ScatterAddMass(base: seq<real>, idx: seq<int>, src: seq<real>)
    requires |idx| == |src| && InRange(idx, |base|)
    ensures Sum(ScatterAdd(base, idx, src)) == Sum(base) + Sum(src)
  {
    ScatterAddUpToMass(base, idx, src, |idx|);
    assert src[..|src|] == src;
  }

  lemma {:induction false} ScatterAddUpToMass(base: seq<real>, idx: seq<int>, src: seq<real>, n: nat)
    requires n <= |idx| == |src| && InRange(idx, |base|)
    ensures Sum(ScatterAddUpTo(base, idx, src, n)) == Sum(base) + Sum(src[..n])
  {
    if n > 0 {
      ScatterAddUpToMass(base, idx, src, n - 1);
      SumUpdate(ScatterAddUpTo(base, idx, src, n - 1), idx[n - 1], src[n - 1]);
      assert src[..n][..n - 1] == src[..n - 1];
    }
  }

  // ---------------------------------------------------------------------------
  // The mixture

  lemma BaseShape(h: HeadInputs, generative: nat, vocabSize: nat, epsilon: real)
    requires |h.pVocab| == generative
    ensures |Base(h, generative, vocabSize, epsilon)| == Width(generative, vocabSize)
    ensures forall j :: 0 <= j < generative ==> Base(h, generative, vocabSize, epsilon)[j] == h.vocabGate * h.pVocab[j]
    ensures forall j :: generative <= j < Width(generative, vocabSize) ==> Base(h, generative, vocabSize, epsilon)[j] == epsilon
  {
  }

  /**
   * The output has the decoder-vocabulary width when that exceeds the
   * generative width, and each cell is its starting value (gate times p_vocab,
   * or the floor) plus every copy contribution aimed at it.
   */
  lemma MixtureAt(h: HeadInputs, contextIdx: seq<int>, questionIdx: seq<int>,
                  generative: nat, vocabSize: nat, epsilon: real, j: nat)
    requires WellFormed(h, contextIdx, questionIdx, generative, vocabSize)
    requires j < Width(generative, vocabSize)
    ensures |Mixture(h, contextIdx, questionIdx, generative, vocabSize, epsilon)| == Width(generative, vocabSize)
    ensures Mixture(h, contextIdx, questionIdx, generative, vocabSize, epsilon)[j] ==
      (if j < generative then h.vocabGate * h.pVocab[j] else epsilon)
      + Contribution(contextIdx, Scaled(ContextWeight(h), h.contextAttn), j)
      + Contribution(questionIdx, Scaled(QuestionWeight(h), h.questionAttn), j)
  {
    BaseShape(h, generative, vocabSize, epsilon);
    var scaled := Base(h, generative, vocabSize, epsilon);
    var withContext := ScatterAdd(scaled, contextIdx, Scaled(ContextWeight(h), h.contextAttn));
    ScatterAddAt(scaled, contextIdx, Scaled(ContextWeight(h), h.contextAttn), j);
    ScatterAddAt(withContext, questionIdx, Scaled(QuestionWeight(h), h.questionAttn), j);
  }

  /**
   * With gates in [0, 1] and non-negative attentions, no cell falls below its
   * starting value; in particular the padded cells stay at least the floor.
   */
  lemma MixtureAtLeastBase(h: HeadInputs, contextIdx: seq<int>, questionIdx: seq<int>,
                           generative: nat, vocabSize: nat, epsilon: real, j: nat)
    requires WellFormed(h, contextIdx, questionIdx, generative, vocabSize)
    requires j < Width(generative, vocabSize)
    requires 0.0 <= h.vocabGate <= 1.0 && 0.0 <= h.copyGate <= 1.0
    requires forall i :: 0 <= i < |h.contextAttn| ==> h.contextAttn[i] >= 0.0
    requires forall i :: 0 <= i < |h.questionAttn| ==> h.questionAttn[i] >= 0.0
    ensures |Mixture(h, contextIdx, questionIdx, generative, vocabSize, epsilon)| == Width(generative, vocabSize)
    ensures Mixture(h, contextIdx, questionIdx, generative, vocabSize, epsilon)[j] >=
      (if j < generative then h.vocabGate * h.pVocab[j] else epsilon)
  {
    MixtureAt(h, contextIdx, questionIdx, generative, vocabSize, epsilon, j);
    ProductNonNegative(h.copyGate, 1.0 - h.vocabGate);
    ProductNonNegative(1.0 - h.copyGate, 1.0 - h.vocabGate);
    ScaledNonNegative(ContextWeight(h), h.contextAttn);
    ScaledNonNegative(QuestionWeight(h), h.questionAttn);
    ContributionNonNegative(contextIdx, Scaled(ContextWeight(h), h.contextAttn), j);
    ContributionNonNegative(questionIdx, Scaled(QuestionWeight(h), h.questionAttn), j);
  }

  /** Mass of the buffer before copying: gate times sum(p_vocab) plus the floor cells. */
  lemma BaseMass(h: HeadInputs, generative: nat, vocabSize: nat, epsilon: real)
    requires |h.pVocab| == generative
    ensures Sum(Base(h, generative, vocabSize, epsilon)) ==
      h.vocabGate * Sum(h.pVocab) + (Width(generative, vocabSize) - generative) as real * epsilon
  {
    SumScaled(h.vocabGate, h.pVocab);
    if generative < vocabSize {
      FlooredMass(Scaled(h.vocabGate, h.pVocab), vocabSize - generative, epsilon);
    } else {
      assert Base(h, generative, vocabSize, epsilon) == Scaled(h.vocabGate, h.pVocab);
    }
  }

  /** Appending `n` floor cells adds `n * epsilon` to the mass. */
  lemma FlooredMass(s: seq<real>, n: nat, epsilon: real)
    ensures Sum(s + Floor(n, epsilon)) == Sum(s) + n as real * epsilon
  {
    SumConcat(s, Floor(n, epsilon));
    SumConst(n, epsilon);
  }

  /** The mass of the output is the buffer's plus that of both weighted copy distributions. */
  lemma MixtureOverBase(h: HeadInputs, contextIdx: seq<int>, questionIdx: seq<int>,
                        generative: nat, vocabSize: nat, epsilon: real)
    requires WellFormed(h, contextIdx, questionIdx, generative, vocabSize)
    ensures Sum(Mixture(h, contextIdx, questionIdx, generative, vocabSize, epsilon)) ==
      Sum(Base(h, generative, vocabSize, epsilon))
      + Sum(Scaled(ContextWeight(h), h.contextAttn))
      + Sum(Scaled(QuestionWeight(h), h.questionAttn))
  {
    var scaled := Base(h, generative, vocabSize, epsilon);
    BaseShape(h, generative, vocabSize, epsilon);
    var contextSrc := Scaled(ContextWeight(h), h.contextAttn);
    ScatterAddMass(scaled, contextIdx, contextSrc);
    ScatterAddMass(ScatterAdd(scaled, contextIdx, contextSrc), questionIdx, Scaled(QuestionWeight(h), h.questionAttn));
  }

  /** Mass of the weighted context copy distribution. */
  lemma ContextMass(h: HeadInputs)
    ensures Sum(Scaled(ContextWeight(h), h.contextAttn)) == h.copyGate * (1.0 - h.vocabGate) * Sum(h.contextAttn)
  {
    SumScaled(ContextWeight(h), h.contextAttn);
  }

  /** Mass of the weighted question copy distribution. */
  lemma QuestionMass(h: HeadInputs)
    ensures Sum(Scaled(QuestionWeight(h), h.questionAttn)) == (1.0 - h.copyGate) * (1.0 - h.vocabGate) * Sum(h.questionAttn)
  {
    SumScaled(QuestionWeight(h), h.questionAttn);
  }

  /**
   * Total mass of the output: g * sum(p_vocab) + (padded cells) * floor
   * + c * (1 - g) * sum(context attention) + (1 - c) * (1 - g) * sum(question attention).
   */
  lemma MixtureMass(h: HeadInputs, contextIdx: seq<int>, questionIdx: seq<int>,
                    generative: nat, vocabSize: nat, epsilon: real)
    requires WellFormed(h, contextIdx, questionIdx, generative, vocabSize)
    ensures Sum(Mixture(h, contextIdx, questionIdx, generative, vocabSize, epsilon)) ==
      h.vocabGate * Sum(h.pVocab)
      + (Width(generative, vocabSize) - generative) as real * epsilon
      + h.copyGate * (1.0 - h.vocabGate) * Sum(h.contextAttn)
      + (1.0 - h.copyGate) * (1.0 - h.vocabGate) * Sum(h.questionAttn)
  {
    MixtureOverBase(h, contextIdx, questionIdx, generative, vocabSize, epsilon);
    BaseMass(h, generative, vocabSize, epsilon);
    ContextMass(h);
    QuestionMass(h);
  }

  /**
   * When p_vocab and both attentions are distributions, the output sums to one
   * plus the mass of the floor cells, whatever the two gates are.
   */
  lemma MixtureNormalized(h: HeadInputs, contextIdx: seq<int>, questionIdx: seq<int>,
                          generative: nat, vocabSize: nat, epsilon: real)
    requires WellFormed(h, contextIdx, questionIdx, generative, vocabSize)
    requires Sum(h.pVocab) == 1.0 && Sum(h.contextAttn) == 1.0 && Sum(h.questionAttn) == 1.0
    ensures Sum(Mixture(h, contextIdx, questionIdx, generative, vocabSize, epsilon)) ==
      1.0 + (Width(generative, vocabSize) - generative) as real * epsilon
  {
    MixtureMass(h, contextIdx, questionIdx, generative, vocabSize, epsilon);
  }
}
