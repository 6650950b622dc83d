# decaNLP / genienlp: decoder bookkeeping and confidence calibration in Dafny

This project models four parts of the genienlp question-answering system and
proves properties of them.

- **The MQAN decoder's pointer-generator output and incremental decoding**
  (`genienlp/models/mqan_decoder.py`). It covers:
  - the distribution `MQANDecoder.probs` mixes from the vocabulary
    distribution and the two copy attentions;
  - the index bookkeeping of `forward`: teacher forcing and the entity-feature
    slices in training, and the inputs of one step at inference;
  - the stateful `MQANDecoderWrapper`. Its constructor expands the encoder
    outputs for beam search. `reorder` permutes rows between beams.
    `next_token_probs` writes one column of every self-attention hidden buffer
    per step and then mixes the pointer distribution of every row;
  - `expand_for_beam_search` and `reorder_for_beam_search` on tensors of any
    rank and on nested tuples and lists of tensors.
- **`SimpleReversibleField`** (`text/torchtext/data/custom_field.py`). This is
  the constructor's keyword defaults and the reversal of a batch of token ids
  back into text:
  - transpose;
  - look up each id;
  - cut at the end token;
  - drop the init and pad tokens;
  - join the words with spaces, or detokenize them.
- **The calibrator of `genienlp/calibrate.py`**. It covers:
  - padding with NaN, then column-wise normalisation, then NaN replaced by 0;
  - column interleaving of two feature blocks;
  - tuple and plain featurizers;
  - concatenation of the blocks and the labels;
  - the hyper-parameter grid search;
  - the accuracy-at-pass-rate curve.
- **The older stand-alone calibrator `calibrate.py`**: zero padding, the entry
  point's labels and features, and its smaller grid search.

Neural computation is never modelled. Embeddings, attention, LSTM cells,
softmax, the sigmoid gates and xgboost training appear only as parameters or
as inputs. The models prove what the code does with their results.

Files:

- `wrappers.dfy`: Option and Result.
- `tensors.dfy`: tensors as nested arrays, expansion and reordering.
- `pointer_mixture.dfy`: `probs`.
- `decoder.dfy`: `forward`'s slicing.
- `decoder_wrapper.dfy`: the class `MQANDecoderWrapper`, with its hidden
  buffers as an `array3`.
- `reversible_field.dfy`: the field.
- `calibration_common.dfy`: what both calibrators share.
- `genie_calibrate.dfy`: `genienlp/calibrate.py`.
- `calibrate.dfy`: `calibrate.py`.

## Model

| member | source | states |
|---|---|---|
| Tensors.Stretch | genienlp/models/mqan_decoder.py:383-387 | the `k`-fold stretch holds only entries of the input and, for `k > 0`, every one of them (its length and positions are StretchLength and StretchAt) |
| Tensors.Expand | genienlp/models/mqan_decoder.py:381-388 | `expand_for_beam_search` on one tensor keeps it an array; along dimension 0 every new slice is an old slice, and deeper it keeps the slice count (extents and positions are ExpandSized and ExpandSelect) |
| Tensors.StretchAt | genienlp/models/mqan_decoder.py:383-387 | unsqueeze, expand and view repeat every entry `k` times in a row: entry `i` of the result is entry `i / k` of the input, and the length is `n * k` |
| Tensors.ExpandSelect | genienlp/models/mqan_decoder.py:381-388 | expanding a tensor by `k` along `dim` gives extent `n * k` there, and slice `i` of the result is slice `i / k` of the input |
| Tensors.ExpandOne | genienlp/models/mqan_decoder.py:381-388 | expansion by a factor of one changes nothing |
| Tensors.ExpandSized | genienlp/models/mqan_decoder.py:381-388 | expansion turns extent `n` into `n * k` along `dim`, also when the result is empty |
| Tensors.Reorder | genienlp/models/mqan_decoder.py:402-409 | `reorder_for_beam_search` on one tensor keeps dimension `dim` and gives it extent `|order|` (the slices are ReorderSelect) |
| Tensors.ReorderSelect | genienlp/models/mqan_decoder.py:402-409 | after `t[new_order]` along `dim` there are `|order|` slices, and slice `j` is slice `order[j]` of the input |
| Tensors.ReorderIdentity | genienlp/models/mqan_decoder.py:402-409 | the identity order leaves a tensor unchanged |
| Tensors.ReorderCompose | genienlp/models/mqan_decoder.py:402-409 | two reorders in a row equal one reorder by the composed order |
| Tensors.AxisSwapSelfInverse | genienlp/models/mqan_decoder.py:402-407 | the permutation `p` (identity with 0 and `dim` exchanged) is its own inverse, so applying `permute(*p)` twice restores the axis order |
| Tensors.TransposeTwice | genienlp/models/mqan_decoder.py:405-407 | exchanging dimensions 0 and 1 twice gives the tensor back |
| Tensors.PermuteIndexPermute | genienlp/models/mqan_decoder.py:402-409 | the source's permute, index, permute-back route for `dim` 0 or 1 gives extent `|order|` along `dim` and, for `dim` 1, keeps the rows (equality with the direct reorder is PermuteRouteAgrees) |
| Tensors.PermuteRouteAgrees | genienlp/models/mqan_decoder.py:402-409 | for `dim` 0 or 1, the permute, index, permute-back route equals reordering directly along `dim` |
| Tensors.ExpandState | genienlp/models/mqan_decoder.py:369-388 | expanding a nested state keeps its skeleton of tuples and lists |
| Tensors.ExpandStateShape | genienlp/models/mqan_decoder.py:369-388 | expansion through nested tuples and lists keeps the container kinds, lengths and order, and gives every tensor extent `n * k` along `dim` |
| Tensors.ReorderState | genienlp/models/mqan_decoder.py:390-409 | reordering a nested state keeps its skeleton, and every tensor gets extent `|order|` along `dim` |
| Tensors.ReorderStateShape | genienlp/models/mqan_decoder.py:390-409 | reordering through nested tuples and lists keeps the containers, and every tensor gets extent `|order|` along `dim` |
| Tensors.ReorderStateIdentity | genienlp/models/mqan_decoder.py:390-409 | the identity order leaves a whole nested state unchanged |
| Tensors.ExpandThenIdentity | genienlp/models/mqan_decoder.py:369-409 | reordering an expanded state by the identity of its new row count leaves it as it is |
| PointerMixture.Width | genienlp/models/mqan_decoder.py:178-182 | the output width is the larger of the generative vocabulary size and the decoder vocabulary length |
| PointerMixture.ScatterAddInPlace | genienlp/models/mqan_decoder.py:185-193 | the in-place `scatter_add_` loop leaves the array equal to the scatter-add of its old contents |
| PointerMixture.ScatterAdd | genienlp/models/mqan_decoder.py:185-193 | `scatter_add_` keeps the buffer's width (its cells are ScatterAddAt, its mass ScatterAddMass) |
| PointerMixture.ScatterAddAt | genienlp/models/mqan_decoder.py:185-193 | after a scatter-add, cell `j` holds its old value plus every source entry whose index is `j`, so duplicate indices accumulate |
| PointerMixture.ContributionAbsent | genienlp/models/mqan_decoder.py:185-193 | a cell that no index names keeps its value |
| PointerMixture.ScatterAddMass | genienlp/models/mqan_decoder.py:185-193 | a scatter-add adds the whole mass of the source to the buffer |
| PointerMixture.Base | genienlp/models/mqan_decoder.py:173-182 | the gated vocabulary distribution, padded with `EPSILON` where the generator has no entry, has the output width |
| PointerMixture.BaseShape | genienlp/models/mqan_decoder.py:173-182 | the buffer before copying has the output width; its first cells are gate times `p_vocab` and the appended cells are `EPSILON` |
| PointerMixture.Probs | genienlp/models/mqan_decoder.py:166-195 | `probs` for one position, computed with two in-place scatter-adds, equals the mixture function |
| PointerMixture.BatchProbs | genienlp/models/mqan_decoder.py:166-195 | row `r` of the batch result is the mixture of head `r` with row `r` of both index matrices |
| PointerMixture.Mixture | genienlp/models/mqan_decoder.py:166-195 | the distribution `probs` returns has the output width (its cells are MixtureAt, its mass MixtureMass) |
| PointerMixture.MixtureAt | genienlp/models/mqan_decoder.py:166-195 | output cell `j` is its starting value plus the context weight times the context attention aimed at `j`, plus the question weight times the question attention aimed at `j` |
| PointerMixture.MixtureAtLeastBase | genienlp/models/mqan_decoder.py:176-193 | with gates in [0, 1] and non-negative attentions, no cell falls below its starting value, and padded cells stay at least `EPSILON` |
| PointerMixture.BaseMass | genienlp/models/mqan_decoder.py:175-182 | the mass before copying is gate times `sum(p_vocab)` plus `EPSILON` for every padded cell |
| PointerMixture.MixtureOverBase | genienlp/models/mqan_decoder.py:184-195 | the output mass is the buffer's mass plus the masses of the two weighted copy distributions |
| PointerMixture.ContextMass | genienlp/models/mqan_decoder.py:185-187 | the context copy distribution carries `c * (1 - g)` times the attention mass |
| PointerMixture.QuestionMass | genienlp/models/mqan_decoder.py:190-193 | the question copy distribution carries `(1 - c) * (1 - g)` times the attention mass |
| PointerMixture.MixtureMass | genienlp/models/mqan_decoder.py:166-195 | total mass is `g * sum(p_vocab) + pads * EPSILON + c(1-g) * sum(context attention) + (1-c)(1-g) * sum(question attention)` |
| PointerMixture.MixtureNormalized | genienlp/models/mqan_decoder.py:166-195 | when `p_vocab` and both attentions sum to one, the output sums to one plus the floor mass, whatever the gates are |
| Decoder.DropLast | genienlp/models/mqan_decoder.py:110 | `x[:-1]` keeps every element but the last, and an empty sequence stays empty |
| Decoder.DropFirst | genienlp/models/mqan_decoder.py:144 | `x[1:]` shifts every element down by one |
| Decoder.TeacherInputs | genienlp/models/mqan_decoder.py:110-111 | the decoder reads every answer row without its last step |
| Decoder.TeacherTargets | genienlp/models/mqan_decoder.py:144 | the targets are every limited-answer row without its first step |
| Decoder.TeacherForcingShift | genienlp/models/mqan_decoder.py:110-144 | inputs and targets have the same shape, and the target at position `i` is the limited token at position `i + 1` |
| Decoder.PaddingMask | genienlp/models/mqan_decoder.py:90-99 | the padding mask is true exactly where the token is `pad_idx` |
| Decoder.Slice | genienlp/models/mqan_decoder.py:103-108 | a feature slice `f[lo:hi]` is clamped to the vector as Python clamps it, and its entries are those of `f` from `lo` |
| Decoder.SliceFeatures | genienlp/models/mqan_decoder.py:103-108 | `feature[:, :, lo:hi]` slices every feature vector the same way and keeps batch and time |
| Decoder.EntityMask | genienlp/models/mqan_decoder.py:105 | the entity mask is 1 exactly where the id differs from the default |
| Decoder.Long | genienlp/models/mqan_decoder.py:103 | `.long()` truncates toward zero: the result is the integer part of a value of either sign, and an integral value survives unchanged |
| Decoder.LongTensor | genienlp/models/mqan_decoder.py:103-108 | `.long()` on a tensor keeps its shape and truncates every cell |
| Decoder.AnswerEntityFeatures | genienlp/models/mqan_decoder.py:101-108 | ids and mask exist exactly when there are database types; probabilities exist exactly under weighted aggregation; ids and probabilities are the stated slices of the floating-point feature tensor, truncated by `.long()`, and the mask marks the truncated ids that differ from the default |
| Decoder.EntityProbsTruncated | genienlp/models/mqan_decoder.py:107-108 | under weighted aggregation, entity probabilities in `[0, 1)` all reach the embedding as 0, because `.long()` truncates them |
| Decoder.DropLastStep | genienlp/models/mqan_decoder.py:110-111 | slicing an optional entity tensor keeps it absent or drops its last step |
| Decoder.EmbedInputsAsWritten | genienlp/models/mqan_decoder.py:110-111 | the embedding call as written succeeds exactly when all three entity tensors are present |
| Decoder.EmbedInputsFor | genienlp/models/mqan_decoder.py:101-111 | the corrected embedding inputs pass each absent entity tensor on as None |
| Decoder.EmbedAsWrittenFailsWithoutEntities | genienlp/models/mqan_decoder.py:101-111 | without database types or without weighted aggregation, the training branch as written always fails |
| Decoder.EmbedInputsAgree | genienlp/models/mqan_decoder.py:110-111 | with every entity tensor present, the corrected inputs are exactly the as-written ones |
| Decoder.EmbedInputsAligned | genienlp/models/mqan_decoder.py:99-111 | position `i` of every embedding input describes answer position `i`: its token, its padding flag and its truncated entity features |
| Decoder.StepTokens | genienlp/models/mqan_decoder.py:150-155 | the first step takes the token ids as given; later steps map every id through `decoder_vocab.decode` |
| Decoder.StepEntityIds | genienlp/models/mqan_decoder.py:158 | the step's entity ids all hold the default value, with width `features_size[0]` |
| Decoder.StepEntityMaskZero | genienlp/models/mqan_decoder.py:158-161 | at inference the entity mask is all zeros |
| DecoderWrapper.InitialBuffers | genienlp/models/mqan_decoder.py:304-307 | the input buffer starts as the positional encodings; every other buffer starts as zeros; each is rows by `max_decoder_time` |
| DecoderWrapper.SetColumn | genienlp/models/mqan_decoder.py:333-336 | `b[:, time] = col` writes column `time` of every row and nothing else |
| DecoderWrapper.RunLayers | genienlp/models/mqan_decoder.py:335-339 | the layer loop preserves the shape of every buffer |
| DecoderWrapper.RunLayersFrame | genienlp/models/mqan_decoder.py:335-339 | the layer loop leaves the input buffer and every column other than `time` unchanged |
| DecoderWrapper.RunLayersAt | genienlp/models/mqan_decoder.py:335-339 | after iteration `l - 1`, column `time` of buffer `l` is layer `l - 1` applied to buffer `l - 1`, with its columns `0..time` as keys |
| DecoderWrapper.StepOtherColumns | genienlp/models/mqan_decoder.py:332-341 | a step changes no column but `time` |
| DecoderWrapper.EmbedColumn | genienlp/models/mqan_decoder.py:333-334 | the new input column has one vector per row (its values are StepInputColumn) |
| DecoderWrapper.LayerColumn | genienlp/models/mqan_decoder.py:336-339 | a layer's output column has one vector per row (its values are StepLayerColumn, its causality StepCausal) |
| DecoderWrapper.StepBuffers | genienlp/models/mqan_decoder.py:332-341 | one step keeps the number, rows and length of every buffer and leaves room for column `time` |
| DecoderWrapper.StepInputColumn | genienlp/models/mqan_decoder.py:333-334 | column `time` of the input buffer gains `sqrt(d_model)` times the embedding |
| DecoderWrapper.StepLayerColumn | genienlp/models/mqan_decoder.py:335-339 | column `time` of buffer `l + 1` is layer `l` on column `time` of buffer `l`, with that buffer's columns `0..time` after the step as keys |
| DecoderWrapper.StepCausal | genienlp/models/mqan_decoder.py:335-339 | a step reads only columns `0..time`: two buffer states that agree there agree on columns `0..time` after the step, whatever their later columns hold |
| DecoderWrapper.WithEncoder | genienlp/models/mqan_decoder.py:336-339 | the layer of a step is the attention layer called with the wrapper's encoder outputs for every layer, row, hidden vector and keys |
| DecoderWrapper.ExpandEncoded | genienlp/models/mqan_decoder.py:274-280 | the seven expansions keep the state's skeleton and only repeat rows of each encoder tensor (row counts are ExpandEncodedSized) |
| DecoderWrapper.ExpandEncodedSized | genienlp/models/mqan_decoder.py:274-280 | expanding the seven encoder tensors turns `batch_size` rows into `batch_size * expansion_factor` rows in each |
| DecoderWrapper.ReorderEncoded | genienlp/models/mqan_decoder.py:312-318 | the seven reorders keep the state's skeleton and give every encoder tensor `|order|` rows |
| DecoderWrapper.ReorderEncodedSized | genienlp/models/mqan_decoder.py:312-318 | an in-range order can be applied to the seven encoder tensors, and each then has `|order|` rows |
| DecoderWrapper.ReorderEncodedIdentity | genienlp/models/mqan_decoder.py:312-318 | reordering the encoder tensors by the identity changes nothing |
| DecoderWrapper.ReorderRnnAsWritten | genienlp/models/mqan_decoder.py:319 | `reorder_for_beam_search(self.rnn_state, ...)` fails when the state is None, because it does not check for None |
| DecoderWrapper.ReorderRnn | genienlp/models/mqan_decoder.py:281-282 | the corrected recurrent reorder keeps an absent state absent and reorders a present one along dimension 1 |
| DecoderWrapper.ReorderWithoutRnnState | genienlp/models/mqan_decoder.py:281-319 | a wrapper built without a recurrent state cannot be reordered as written; the corrected version can |
| DecoderWrapper.ReorderRnnAgrees | genienlp/models/mqan_decoder.py:319 | wherever the as-written reorder succeeds, and whenever a state is present, the corrected reorder agrees with it |
| DecoderWrapper.IndexRows | genienlp/models/mqan_decoder.py:362-364 | the index tensors read as one row of vocabulary indices per batch row |
| DecoderWrapper.BatchMixture | genienlp/models/mqan_decoder.py:362-364 | `probs` on a batch gives one mixture per head |
| DecoderWrapper.MQANDecoderWrapper.constructor | genienlp/models/mqan_decoder.py:271-307 | the encoder tensors are expanded by `expansion_factor`; a present recurrent state is expanded along dimension 1; `time` is 0; there is no decoder output; the hidden buffers hold the initial values |
| DecoderWrapper.MQANDecoderWrapper.Reorder | genienlp/models/mqan_decoder.py:310-326 | an out-of-range order raises and changes nothing; otherwise every encoder tensor takes row `order[j]` as row `j`, and then the recurrent state goes through the corrected recurrent reorder `ReorderRnn` (see Findings): an absent state stays absent, a present one is reordered, and a failure leaves the encoder tensors already reordered |
| DecoderWrapper.MQANDecoderWrapper.WriteColumn | genienlp/models/mqan_decoder.py:336 | writing `hiddens[l][:, time]` changes only that column of buffer `l` |
| DecoderWrapper.MQANDecoderWrapper.AddEmbedding | genienlp/models/mqan_decoder.py:333-334 | `hiddens[0][:, time]` gains the scaled embedding |
| DecoderWrapper.MQANDecoderWrapper.LayerOutputs | genienlp/models/mqan_decoder.py:336-339 | layer `l` runs on every row's column `time`, with that row's columns `0..time` as keys and with the encoder outputs the wrapper holds now (self-attended context, context padding) |
| DecoderWrapper.MQANDecoderWrapper.ApplyLayer | genienlp/models/mqan_decoder.py:336-339 | iteration `l` of the layer loop moves the buffers one iteration further along the loop's specification |
| DecoderWrapper.MQANDecoderWrapper.RunLayerLoop | genienlp/models/mqan_decoder.py:335-339 | the whole loop leaves the buffers where the specification's layer loop ends |
| DecoderWrapper.MQANDecoderWrapper.ReadColumn | genienlp/models/mqan_decoder.py:341 | reads `hiddens[l][:, time]` |
| DecoderWrapper.MQANDecoderWrapper.SelfAttend | genienlp/models/mqan_decoder.py:332-341 | the self-attention part of a step turns the buffers into the step function's result, with the layers bound to the wrapper's current encoder outputs, and returns the top buffer's column `time` |
| DecoderWrapper.MQANDecoderWrapper.Decode | genienlp/models/mqan_decoder.py:345-367 | runs the recurrent/attention part on the decoded column, the previous output, the recurrent state and the wrapper's encoder outputs (context, question, paddings); stores the new decoder output, replaces the recurrent state only with recurrent layers, returns the batch mixture over the wrapper's index tensors, and advances `time` by one; a shape mismatch returns an error without advancing `time` |
| DecoderWrapper.MQANDecoderWrapper.NextTokenProbs | genienlp/models/mqan_decoder.py:328-367 | one step: without room for column `time`, or with a misshaped embedding, it fails and changes nothing; otherwise the buffers become the step function's result with the layers bound to the current encoder outputs (unchanged without self-attention), and the decoded input, decoder output, recurrent state, result and `time` are as in Decode, which also sees the encoder outputs |
| ReversibleField.WithDefaults | text/torchtext/data/custom_field.py:13-16 | `tokenize` defaults to `'revtok'` only when absent or None, and `unk_token` to `' UNK '` only when absent; every other key passes through unchanged |
| ReversibleField.WithDefaultsIdempotent | text/torchtext/data/custom_field.py:13-16 | filling in the defaults twice equals filling them in once |
| ReversibleField.RevtokFlagAgrees | text/torchtext/data/custom_field.py:9-14 | `use_revtok` is false exactly when the tokenizer passed on is `list` |
| ReversibleField.SimpleReversibleField.constructor | text/torchtext/data/custom_field.py:8-17 | `use_revtok` is false exactly when `tokenize` is `list`; the keyword arguments handed on carry the defaults |
| ReversibleField.Transposed | text/torchtext/data/custom_field.py:26-27 | `batch.t()` swaps rows and columns |
| ReversibleField.TransposedTwice | text/torchtext/data/custom_field.py:26-27 | transposing twice gives the batch back |
| ReversibleField.Words | text/torchtext/data/custom_field.py:30 | every id is replaced by its `itos` word |
| ReversibleField.Trimmed | text/torchtext/data/custom_field.py:32-38 | `trim` is the longest prefix without the end token, and it stops exactly at the first end token |
| ReversibleField.TrimmedUnique | text/torchtext/data/custom_field.py:32-38 | any prefix that stops at the first end token is the trimmed result |
| ReversibleField.TrimmedWithoutEos | text/torchtext/data/custom_field.py:32-38 | without an end token the whole example is kept |
| ReversibleField.Trim | text/torchtext/data/custom_field.py:32-38 | the append-until-break loop computes the trimmed prefix |
| ReversibleField.KeepOrdinary | text/torchtext/data/custom_field.py:42-45 | the filter keeps exactly the words that are neither the init nor the pad token |
| ReversibleField.KeepOrdinaryConcat | text/torchtext/data/custom_field.py:42-45 | the filter keeps order: it distributes over concatenation |
| ReversibleField.KeepOrdinaryAll | text/torchtext/data/custom_field.py:42-45 | a sequence of ordinary words passes the filter unchanged |
| ReversibleField.Join | text/torchtext/data/custom_field.py:50 | `sep.join(ws)` is empty for no words; otherwise it starts with the first word and has the words' total length plus one separator between each two words |
| ReversibleField.Split | text/torchtext/data/custom_field.py:50 | `s.split(sep)` has at least one piece and no piece contains the separator: the inverse that reads `' '.join` back |
| ReversibleField.JoinSplit | text/torchtext/data/custom_field.py:50 | splitting a text on a one-character separator and joining the pieces with it gives the text back |
| ReversibleField.SplitJoin | text/torchtext/data/custom_field.py:50 | joining non-empty word lists with a one-character separator, then splitting on it, gives the words back when no word holds the separator |
| ReversibleField.Concat | text/torchtext/data/custom_field.py:56 | `''.join(ws)` has the words' total length and starts with the first word |
| ReversibleField.JoinEmptyAll | text/torchtext/data/custom_field.py:56 | `''.join` concatenates the words of every example |
| ReversibleField.SimpleReversibleField.Examples | text/torchtext/data/custom_field.py:26-29 | without `batch_first` the examples are the batch's columns; otherwise they are its rows |
| ReversibleField.SimpleReversibleField.ReverseExample | text/torchtext/data/custom_field.py:30-45 | no reversed word is the end token, the init token or the pad token, and every reversed word is a vocabulary word |
| ReversibleField.SimpleReversibleField.ReverseBase | text/torchtext/data/custom_field.py:19-46 | raises `IndexError` exactly when some id has no vocabulary word; otherwise there is one word list per example, and each is the reversal of that example |
| ReversibleField.SimpleReversibleField.ReverseAlmond | text/torchtext/data/custom_field.py:48-50 | raises `IndexError` exactly when `_reverse_base` does; otherwise every example becomes its words joined by single spaces |
| ReversibleField.SimpleReversibleField.Reverse | text/torchtext/data/custom_field.py:52-56 | raises `IndexError` exactly when `_reverse_base` does; otherwise every example is detokenized with revtok, or concatenated when the field was built with `tokenize=list` |
| ReversibleField.SimpleReversibleField.ReverseExamplePlain | text/torchtext/data/custom_field.py:30-45 | an example with no end token and no special token reads back as its words |
| ReversibleField.SimpleReversibleField.ReverseAlmondSplits | text/torchtext/data/custom_field.py:48-50 | `reverse_almond` of such an example splits on spaces back into its words |
| CalibrationCommon.MaxLength | genienlp/calibrate.py:14 | `pad_len` bounds every feature vector's length and equals one of them |
| CalibrationCommon.PadTo | genienlp/calibrate.py:21 | `np.pad` keeps the features and fills up to the target length |
| CalibrationCommon.Features | genienlp/calibrate.py:14-18 | entry `i` is `f(confidences[i])` |
| CalibrationCommon.Padded | genienlp/calibrate.py:14-23 | the stacked matrix is rectangular, has one row per confidence and width `pad_len`, holds the features first and the fill after them |
| CalibrationCommon.PadRows | genienlp/calibrate.py:14-23 | empty confidences raise (`max` of an empty list); otherwise the loop builds the padded matrix and one length per confidence |
| CalibrationCommon.ZeroNaN | genienlp/calibrate.py:36 | NaN cells become 0 and every other cell is kept |
| CalibrationCommon.ReplaceNaN | genienlp/calibrate.py:36 | the in-place NaN replacement computes the NaN-free matrix |
| CalibrationCommon.DeriveLabels | genienlp/calibrate.py:134-154 | a label is true exactly when `first_mistake + 1 == 0` |
| CalibrationCommon.SumWidths | genienlp/calibrate.py:150 | the concatenated width is at least every block's width, and 0 when every block is empty |
| CalibrationCommon.ConcatColumns | genienlp/calibrate.py:150 | `np.concatenate(axis=1)` is rectangular, with the summed width; the first block's columns come first |
| CalibrationCommon.ConcatColumnsCell | genienlp/calibrate.py:150 | cell `j` of block `k` sits at column `SumWidths(blocks before k) + j` |
| CalibrationCommon.Flatten | genienlp/calibrate.py:94 | every entry of every block appears in the flattened sequence (its length and positions are FlattenAt) |
| CalibrationCommon.Product | genienlp/calibrate.py:94 | `itertools.product(xs, ys, zs)` has `|xs| * |ys| * |zs|` points |
| CalibrationCommon.ProductAt | genienlp/calibrate.py:94 | `itertools.product` has `|xs|*|ys|*|zs|` points, and point `(i, j, k)` sits at position `i*|ys|*|zs| + j*|zs| + k` |
| CalibrationCommon.Ranked | genienlp/calibrate.py:94-114 | the scores are those of the trained models, in grid order |
| CalibrationCommon.FirstBestUnique | genienlp/calibrate.py:118-123 | the first grid point with the strictly highest positive score is unique |
| CalibrationCommon.SelectFirstBest | genienlp/calibrate.py:90-125 | there is no model when no score exceeds 0, and then the best score is 0; otherwise the model is the first grid point with the highest score; the best score bounds every score |
| GenieCalibrate.ColumnWise | genienlp/calibrate.py:24-31 | the normalisation keeps the shape, leaves NaN cells NaN and maps every other cell through the column's normaliser |
| GenieCalibrate.PaddedFeatures | genienlp/calibrate.py:13-39 | raises on empty confidences or an unknown mode; otherwise the result is rectangular and NaN-free, has one row per confidence and width `pad_len`, has 0 in every padded cell, holds the lengths, in `'none'` mode holds the raw features, and in `'var'` or `'max'` mode holds at every feature cell the mode's statistic of the NaN-padded column applied to the raw value, or 0 where that statistic is NaN |
| GenieCalibrate.NormalizedCell | genienlp/calibrate.py:24-36 | a normalised cell is never NaN: it is the statistic's value when that is a number, and 0 otherwise |
| GenieCalibrate.PadFeatures | genienlp/calibrate.py:13-39 | pad with NaN, normalise by mode and zero the NaNs: computes the padded-features function |
| GenieCalibrate.InterleaveRowAt | genienlp/calibrate.py:47-48 | column `2h` holds `a[h]` and column `2h + 1` holds `b[h]` |
| GenieCalibrate.Interleave | genienlp/calibrate.py:46-48 | the interleave of two same-shaped matrices is rectangular, with their rows and the sum of their widths (its cells are InterleaveCell) |
| GenieCalibrate.InterleaveCell | genienlp/calibrate.py:46-48 | the interleaved matrix's even columns are `a` and its odd columns are `b` |
| GenieCalibrate.InterleaveSplits | genienlp/calibrate.py:46-48 | taking the even and the odd columns of the interleaving gives back `a` and `b` |
| GenieCalibrate.Strided | genienlp/calibrate.py:46-48 | the strided assignments fill a fresh `n` by `2w` array with `a` in the even columns and `b` in the odd ones |
| GenieCalibrate.InterleaveFeatures | genienlp/calibrate.py:41-52 | fails unless there are exactly two arrays of the same shape; otherwise the result is their interleaving |
| GenieCalibrate.FeatureBlock | genienlp/calibrate.py:139-147 | a featurizer's successful block is rectangular with one row per confidence (its failures are FeatureBlockFails) |
| GenieCalibrate.FeatureBlockFails | genienlp/calibrate.py:139-147 | a featurizer's block fails exactly when padding fails, or, for a tuple, when interleaving fails |
| GenieCalibrate.TupleBlock | genienlp/calibrate.py:140-145 | a pair featurizer's block is the interleaving of its two padded blocks |
| GenieCalibrate.Blocks | genienlp/calibrate.py:138-149 | the blocks fail exactly when some featurizer's block fails; otherwise there is one block per featurizer, each with one row per confidence |
| GenieCalibrate.FeaturizerBlock | genienlp/calibrate.py:139-148 | the loop over a featurizer computes its block |
| GenieCalibrate.BuildBlocks | genienlp/calibrate.py:138-149 | the loop over the featurizers stops at the first failure and otherwise collects every block |
| GenieCalibrate.AssembleFeatures | genienlp/calibrate.py:138-150 | no featurizers, or a failing block, raises; otherwise the features are the blocks concatenated along the columns |
| GenieCalibrate.RunInputs | genienlp/calibrate.py:133-154 | `run` gets one label per confidence, true exactly when `first_mistake + 1 == 0`, and the concatenated features |
| GenieCalibrate.Grid | genienlp/calibrate.py:86-94 | the grid `itertools.product` builds from 7 depths, 4 steps and one round count has 28 points (which point is where is GridAt) |
| GenieCalibrate.GridAt | genienlp/calibrate.py:86-94 | the 28 grid points put depth `i` with step `j` at position `4i + j`, always with 300 rounds |
| GenieCalibrate.TuneAndTrain | genienlp/calibrate.py:85-125 | returns the first grid point whose model has the highest score above 0, with that model, its score and its confusion matrix; returns None when no score exceeds 0; the returned score bounds every score |
| GenieCalibrate.Zip | genienlp/calibrate.py:189 | `zip` stops at the shorter input and pairs entries in order |
| GenieCalibrate.Sort | genienlp/calibrate.py:189 | `sorted` orders the pairs by score, then by label, and is a permutation |
| GenieCalibrate.Positives | genienlp/calibrate.py:199 | the number of correct labels is at most the number of pairs |
| GenieCalibrate.AccuracyAtPassRate | genienlp/calibrate.py:188-202 | fails to unpack when nothing is zipped; otherwise pass rate `i` is `(n - i) / n` and accuracy `i` is the share of correct labels among the sorted pairs from `i` on |
| GenieCalibrate.Curve | genienlp/calibrate.py:193-202 | the loop builds exactly those pass rates and accuracies |
| GenieCalibrate.PassRatesDecrease | genienlp/calibrate.py:195-198 | the pass rates start at 1 and strictly decrease |
| GenieCalibrate.AccuraciesBounded | genienlp/calibrate.py:199-200 | every accuracy lies in [0, 1] |
| GenieCalibrate.PositivesPermutation | genienlp/calibrate.py:189-199 | sorting does not change how many labels are correct |
| GenieCalibrate.AccuracyAtFullPass | genienlp/calibrate.py:195-200 | at pass rate 1 the accuracy is the share of correct labels in the unsorted data |
| Calibrate.PadFeatures | calibrate.py:9-19 | raises on empty confidences; otherwise returns the zero-padded features: one row per confidence, width `pad_len`, the features first and zeros after them |
| Calibrate.ZeroPaddedBlocks | calibrate.py:81-84 | one zero-padded block per featurizer, each with one row per confidence |
| Calibrate.LabelsAndFeatures | calibrate.py:75-90 | a label is true exactly when `first_mistake + 1 == 0`; the features raise when there are no confidences or no featurizers, and otherwise are the padded blocks concatenated with their summed width |
| Calibrate.FeatureCell | calibrate.py:81-86 | in the concatenated features, featurizer `k`'s value `j` sits after the earlier featurizers' widths, with zeros where its vector is shorter |
| Calibrate.Grid | calibrate.py:29-36 | the grid `itertools.product` builds from 5 depths, 3 steps and one round count has 15 points (which point is where is GridAt) |
| Calibrate.GridAt | calibrate.py:29-36 | the 15 grid points put depth `i` with step `j` at position `3i + j`, always with 200 rounds |
| Calibrate.TuneAndTrain | calibrate.py:28-65 | returns the first model with the highest accuracy above 0, with its accuracy and confusion matrix; returns None when none exceeds 0; the returned accuracy bounds every accuracy |

## Left out

- Neural computation is not modelled, and neither are its floating-point arithmetic or CUDA devices. This covers embeddings, `TransformerDecoder` layers, `LSTMDecoder`, attention, softmax, the output projection, the sigmoid gates and dropout. Layers and the recurrent/attention part of a step are function parameters. Their results are inputs to the mixture. Values are exact reals.
- `applyMasks` is not modelled: it installs masks in attention modules that are not part of this model.
- The teacher-forced loss (`mask`, `nll_loss`, the encoder loss weight) is not modelled. Only the slicing of inputs and targets is modelled.
- `positional_encodings_like`, `EPSILON` and `math.sqrt(d_model)` are parameters. The common module that defines them is not part of this model.
- Negative indices in `new_order` are not modelled: orders are `nat`. Out-of-range orders are modelled and fail.
- DecoderWrapper.MQANDecoderWrapper.Reorder: requires `|order|` to equal the row count. It does not model reorders that change the number of rows.
- DecoderWrapper.MQANDecoderWrapper.Reorder: reorders the recurrent state with the corrected `ReorderRnn`, not with the as-written `ReorderRnnAsWritten` (see Findings). A wrapper without a recurrent state therefore reorders successfully here, where line 319 raises.
- DecoderWrapper.MQANDecoderWrapper.LayerOutputs: a layer sees the wrapper's whole encoder record and the row index, not only `self_attended_context[l]` and `context_padding`. Which encoder tensors a layer actually reads is up to the layer parameter.
- DecoderWrapper.MQANDecoderWrapper.NextTokenProbs: a successful step needs an embedding with one row per beam row. torch's broadcasting of a one-row embedding across all rows is not modelled; such a call returns `ShapeMismatch` here.
- DecoderWrapper.MQANDecoderWrapper.Reorder: leaves the hidden buffers and the decoder output alone, as the code does. A beam permutation therefore does not carry the self-attention history with it.
- Tensors.PermuteRouteAgrees: the permute, index, permute-back route is proved equal to the direct reorder only for dimensions 0 and 1, the two the source uses. Higher dimensions use the direct reorder.
- Expansion of the encoder tensors is along dimension 0 and that of the recurrent state along dimension 1, as in the source. Tuples and lists are modelled as nested states.
- ReversibleField.SimpleReversibleField.ReverseBase: token ids are natural numbers, so Python's negative indexing into `itos` is not modelled.
- `SimpleReversibleField`'s base class `Field` is not part of this model. The constructor takes `batch_first`, `init_token`, `eos_token`, `pad_token` and `vocab.itos` as parameters. `revtok.detokenize` is a parameter of `Reverse`.
- GenieCalibrate.PaddedFeatures: `'var'` and `'max'` normalisation are normaliser parameters that see the whole column. This includes NaN padding, so numpy's NaN propagation in `np.max` can be expressed. `nanmean`, `nanvar`, `sqrt` and division by zero are not modelled.
- Raw feature values are reals, so a NaN inside a featurizer's own output is not modelled.
- The featurizer accessors (`logit_cv_0`, `logit_mean_0` and the rest) are not modelled. They read fields of confidence objects that are not part of this model; featurizers are function parameters.
- xgboost training and prediction, `accuracy_score`, `confusion_matrix`, `model.best_score`, `train_test_split`, `precision_recall_curve` and `DMatrix` are not modelled. They are parameters where the control flow uses their results.
- `scale_pos_weight` is not modelled because it only feeds xgboost.
- GenieCalibrate.TuneAndTrain: the accuracy the source computes and prints but never uses for selection is not returned.
- `pickle` loading, `argparse`, `pyplot`, `print` and `exit` are I/O and are not modelled. `main`'s plotting loop is not modelled; its labels are modelled by `DeriveLabels`.
- `sorted` in `run` over triples with the original order is not modelled. Only `accuracy_at_pass_rate`'s sort of (score, label) pairs is modelled.
- `np.round` of predictions and integer dtypes are not modelled.

## Findings

| source | as written | input that shows it | evidently intended | confidence | as-written member | corrected member |
|---|---|---|---|---|---|---|
| genienlp/models/mqan_decoder.py:319 | `reorder` passes `self.rnn_state` to `reorder_for_beam_search` unconditionally. The constructor (line 281) allows the state to be None, and `None.shape` raises. | A wrapper built with `rnn_state=None` (no encoder recurrent state), then `reorder([0])` | reorder the state only when it is present, as the constructor's guard at line 281 does | not executed; the None path follows from the code | DecoderWrapper.ReorderRnnAsWritten (counterexample lemma DecoderWrapper.ReorderWithoutRnnState) | DecoderWrapper.ReorderRnn |
| genienlp/models/mqan_decoder.py:110-111 | The training branch slices `answer_entity_ids`, `answer_entity_masking` and `answer_entity_probs` unconditionally, although lines 101-108 leave them None without database types or without weighted aggregation | `num_db_types == 0`, or `entity_type_agg_method != 'weighted'`, in training mode | pass absent entity tensors on as None | not executed; `None[:, :-1, :]` raises a TypeError in Python | Decoder.EmbedInputsAsWritten (counterexample lemma Decoder.EmbedAsWrittenFailsWithoutEntities) | Decoder.EmbedInputsFor |
