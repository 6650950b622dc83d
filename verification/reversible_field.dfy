/**
 * `SimpleReversibleField`: the constructor's keyword defaults and the
 * reversal of a batch of token ids back into text.
 */
module ReversibleField {
  import opened Wrappers

  // ---------------------------------------------------------------------------
  // Keyword arguments

  /** A keyword-argument value, as far as the constructor inspects it. */
  datatype KwValue =
    | NoneValue          // Python `None`
    | ListType           // the builtin `list` itself (`tokenize=list`)
    | Text(s: string)
    | OtherValue(tag: nat)  // any other object (a tokenizer function, a number, ...)

  type Kwargs = map<string, KwValue>

  /** `kwargs.get(key)`: an absent key reads as None. */
  function Get(kw: Kwargs, key: string): KwValue
  {
    if key in kw then kw[key] else NoneValue
  }

  /** The keyword arguments the constructor hands on to the base `Field`. */
  function WithDefaults(kw: Kwargs): (r: Kwargs)
    ensures "tokenize" in r && "unk_token" in r
    ensures Get(kw, "tokenize") == NoneValue ==> r["tokenize"] == Text("revtok")
    ensures Get(kw, "tokenize") != NoneValue ==> r["tokenize"] == kw["tokenize"]
    ensures "unk_token" in kw ==> r["unk_token"] == kw["unk_token"]
    ensures "unk_token" !in kw ==> r["unk_token"] == Text(" UNK ")
    ensures forall k :: k in kw ==> k in r
    ensures forall k :: k in r && k != "tokenize" && k != "unk_token" ==> k in kw && r[k] == kw[k]
  {
    var t := if Get(kw, "tokenize") == NoneValue then kw["tokenize" := Text("revtok")] else kw;
    if "unk_token" in t then t else t["unk_token" := Text(" UNK ")]
  }

  /** Filling in the defaults a second time changes nothing. */
  lemma WithDefaultsIdempotent(kw: Kwargs)
    ensures WithDefaults(WithDefaults(kw)) == WithDefaults(kw)
  {
    var once := WithDefaults(kw);
    var twice := WithDefaults(once);
    assert Get(once, "tokenize") != NoneValue;
    forall k | k in twice ensures k in once && twice[k] == once[k] {
    }
    assert twice.Keys == once.Keys;
  }

  /** `use_revtok` holds exactly when the tokenizer handed on is something other than `list`. */
  lemma RevtokFlagAgrees(kw: Kwargs)
    ensures (Get(kw, "tokenize") != ListType) <==> WithDefaults(kw)["tokenize"] != ListType
  {
  }

  // ---------------------------------------------------------------------------
  // The reversal pipeline, one stage at a time

  /** Every row of `m` has `cols` entries: `m` is a 2-D tensor. */
  predicate Rectangular(m: seq<seq<nat>>, cols: nat)
  {
    forall r :: 0 <= r < |m| ==> |m[r]| == cols
  }

  /** `m.t()` of a `|m|` by `cols` matrix. */
  function Transposed(m: seq<seq<nat>>, cols: nat): (r: seq<seq<nat>>)
    requires Rectangular(m, cols)
    ensures |r| == cols && Rectangular(r, |m|)
    ensures forall i, j :: 0 <= i < cols && 0 <= j < |m| ==> r[i][j] == m[j][i]
  {
    seq(cols, i requires 0 <= i < cols => seq(|m|, j requires 0 <= j < |m| => m[j][i]))
  }

  /** Transposing twice gives back the matrix. */
  lemma TransposedTwice(m: seq<seq<nat>>, cols: nat)
    requires Rectangular(m, cols)
    ensures Transposed(Transposed(m, cols), |m|) == m
  {
    var back := Transposed(Transposed(m, cols), |m|);
    forall j | 0 <= j < |m| ensures back[j] == m[j] {
    }
  }

  /** `[self.vocab.itos[ind] for ind in ex]`. */
  function Words(ids: seq<nat>, itos: seq<string>): (r: seq<string>)
    requires forall i :: 0 <= i < |ids| ==> ids[i] < |itos|
    ensures |r| == |ids| && forall i :: 0 <= i < |ids| ==> r[i] == itos[ids[i]]
  {
    seq(|ids|, i requires 0 <= i < |ids| => itos[ids[i]])
  }

  /**
   * `trim(s, eos)`: the longest prefix of `s` without the end token. The
   * token is optional: a word never equals None, so then nothing is cut.
   */
  function Trimmed(s: seq<string>, eos: Option<string>): (r: seq<string>)
    ensures |r| <= |s| && r == s[..|r|]
    ensures forall i :: 0 <= i < |r| ==> Some(r[i]) != eos
    ensures |r| < |s| ==> Some(s[|r|]) == eos
  {
    if |s| == 0 || Some(s[0]) == eos then []
    else [s[0]] + Trimmed(s[1..], eos)
  }

  /** Trimming is determined by its contract: the prefix that stops at the first end token. */
  lemma TrimmedUnique(s: seq<string>, eos: Option<string>, k: nat)
    requires k <= |s| && forall i :: 0 <= i < k ==> Some(s[i]) != eos
    requires k < |s| ==> Some(s[k]) == eos
    ensures Trimmed(s, eos) == s[..k]
  {
  }

  /** Without the end token the whole sequence is kept. */
  lemma TrimmedWithoutEos(s: seq<string>, eos: Option<string>)
    requires forall i :: 0 <= i < |s| ==> Some(s[i]) != eos
    ensures Trimmed(s, eos) == s
  {
    TrimmedUnique(s, eos, |s|);
  }

  /** `trim` as the loop it is: append words until the end token. */
  method Trim(s: seq<string>, eos: Option<string>) returns (sentence: seq<string>)
    ensures sentence == Trimmed(s, eos)
  {
    sentence := [];
    var i := 0;
    while i < |s|
      invariant i <= |s| && sentence == s[..i]
      invariant forall j :: 0 <= j < i ==> Some(s[j]) != eos
    {
      if Some(s[i]) == eos {
        break;
      }
      sentence := sentence + [s[i]];
      i := i + 1;
    }
    TrimmedUnique(s, eos, i);
  }

  /** `filter_special`: a word survives unless it is the init or the pad token. */
  predicate Ordinary(w: string, initToken: Option<string>, padToken: Option<string>)
  {
    Some(w) != initToken && Some(w) != padToken
  }

  /** `filter(filter_special, ex)`. */
  function KeepOrdinary(s: seq<string>, initToken: Option<string>, padToken: Option<string>): (r: seq<string>)
    ensures |r| <= |s|
    ensures forall i :: 0 <= i < |r| ==> Ordinary(r[i], initToken, padToken)
    ensures forall w :: w in r <==> w in s && Ordinary(w, initToken, padToken)
  {
    if |s| == 0 then []
    else
      assert forall w :: w in s <==> w == s[0] || w in s[1..];
      if Ordinary(s[0], initToken, padToken) then [s[0]] + KeepOrdinary(s[1..], initToken, padToken)
      else KeepOrdinary(s[1..], initToken, padToken)
  }

  /** Filtering keeps the order: it distributes over concatenation. */
  lemma {:induction false} KeepOrdinaryConcat(a: seq<string>, b: seq<string>, initToken: Option<string>, padToken: Option<string>)
    ensures KeepOrdinary(a + b, initToken, padToken) == KeepOrdinary(a, initToken, padToken) + KeepOrdinary(b, initToken, padToken)
    decreases |a|
  {
    if |a| > 0 {
      var ab := a + b;
      assert ab[0] == a[0] && ab[1..] == a[1..] + b;
      KeepOrdinaryConcat(a[1..], b, initToken, padToken);
      var rest, tail := KeepOrdinary(a[1..], initToken, padToken), KeepOrdinary(b, initToken, padToken);
      if Ordinary(a[0], initToken, padToken) {
        assert KeepOrdinary(ab, initToken, padToken) == [a[0]] + (rest + tail);
        assert KeepOrdinary(a, initToken, padToken) == [a[0]] + rest;
      } else {
        assert KeepOrdinary(ab, initToken, padToken) == rest + tail;
        assert KeepOrdinary(a, initToken, padToken) == rest;
      }
    } else {
      assert a + b == b;
    }
  }

  /** A sequence of ordinary words passes the filter unchanged. */
  lemma {:induction false} KeepOrdinaryAll(s: seq<string>, initToken: Option<string>, padToken: Option<string>)
    requires forall i :: 0 <= i < |s| ==> Ordinary(s[i], initToken, padToken)
    ensures KeepOrdinary(s, initToken, padToken) == s
  {
    if |s| > 0 {
      KeepOrdinaryAll(s[1..], initToken, padToken);
    }
  }

  /** The words' lengths added up. */
  function TotalLength(ws: seq<string>): nat
  {
    if |ws| == 0 then 0 else |ws[0]| + TotalLength(ws[1..])
  }

  /** `sep.join(ws)`: one separator between consecutive words. */
  function Join(sep: string, ws: seq<string>): (r: string)
    ensures |ws| == 0 ==> r == ""
    ensures |ws| > 0 ==> |r| == TotalLength(ws) + (|ws| - 1) * |sep|
    ensures |ws| > 0 ==> r[..|ws[0]|] == ws[0]
  {
    if |ws| == 0 then ""
    else if |ws| == 1 then ws[0]
    else ws[0] + sep + Join(sep, ws[1..])
  }

  /** `s.split(sep)` for a one-character separator: always at least one piece, none holding the separator. */
  function Split(s: string, sep: char): (r: seq<string>)
    ensures |r| >= 1
    ensures forall i :: 0 <= i < |r| ==> sep !in r[i]
  {
    if |s| == 0 then [""]
    else if s[0] == sep then [""] + Split(s[1..], sep)
    else
      var rest := Split(s[1..], sep);
      [[s[0]] + rest[0]] + rest[1..]
  }

  /** `''.join(ws)`: the words one after the other. */
  function Concat(ws: seq<string>): (r: string)
    ensures |r| == TotalLength(ws)
    ensures |ws| > 0 ==> r[..|ws[0]|] == ws[0]
  {
    if |ws| == 0 then "" else ws[0] + Concat(ws[1..])
  }

  /** A word without the separator splits into itself, also when more text follows a separator. */
  lemma {:induction false} SplitWord(w: string, sep: char, rest: string)
    requires sep !in w
    ensures Split(w, sep) == [w]
    ensures Split(w + [sep] + rest, sep) == [w] + Split(rest, sep)
    decreases |w|
  {
    if |w| > 0 {
      assert (w + [sep] + rest)[1..] == w[1..] + [sep] + rest;
      SplitWord(w[1..], sep, rest);
      assert [w[0]] + w[1..] == w;
    } else {
      assert w + [sep] + rest == [sep] + rest;
    }
  }

  /** Joining words free of the separator with a one-character separator, then splitting, gives the words back. */
  lemma {:induction false} SplitJoin(ws: seq<string>, sep: char)
    requires |ws| > 0 && forall i :: 0 <= i < |ws| ==> sep !in ws[i]
    ensures Split(Join([sep], ws), sep) == ws
  {
    if |ws| == 1 {
      SplitWord(ws[0], sep, "");
    } else {
      var rest := Join([sep], ws[1..]);
      assert Join([sep], ws) == ws[0] + [sep] + rest;
      SplitJoin(ws[1..], sep);
      SplitWord(ws[0], sep, rest);
      assert ws == [ws[0]] + ws[1..];
    }
  }

  /** Splitting on a one-character separator and joining the pieces with it gives the text back. */
  lemma {:induction false} JoinSplit(s: string, sep: char)
    ensures Join([sep], Split(s, sep)) == s
    decreases |s|
  {
    if |s| > 0 {
      var rest := Split(s[1..], sep);
      JoinSplit(s[1..], sep);
      if s[0] == sep {
        assert Join([sep], [""] + rest) == "" + [sep] + Join([sep], rest);
      } else {
        var pieces := [[s[0]] + rest[0]] + rest[1..];
        if |rest| == 1 {
          assert Join([sep], rest) == rest[0];
        } else {
          assert Join([sep], rest) == rest[0] + [sep] + Join([sep], rest[1..]);
          assert pieces[1..] == rest[1..];
          assert Join([sep], pieces) == [s[0]] + rest[0] + [sep] + Join([sep], rest[1..]);
        }
      }
    }
  }

  /** The empty separator concatenates, for every list of a batch. */
  lemma JoinEmptyAll(wss: seq<seq<string>>)
    ensures forall e :: 0 <= e < |wss| ==> Join("", wss[e]) == Concat(wss[e])
  {
    forall e | 0 <= e < |wss| ensures Join("", wss[e]) == Concat(wss[e]) {
      JoinEmpty(wss[e]);
    }
  }

  /** The empty separator concatenates. */
  lemma {:induction false} JoinEmpty(ws: seq<string>)
    ensures Join("", ws) == Concat(ws)
  {
    if |ws| > 1 {
      JoinEmpty(ws[1..]);
      assert ws[0] + "" == ws[0];
    } else if |ws| == 1 {
      assert ws[0] + Concat(ws[1..]) == ws[0] + "";
    }
  }

  // ---------------------------------------------------------------------------
  // The field

  /** What denumericalising can raise: `vocab.itos[ind]` with `ind` past the vocabulary. */
  datatype ReverseError = IndexError

  class SimpleReversibleField {
    /** False exactly when the field was built with `tokenize=list`. */
    var useRevtok: bool
    /** The keyword arguments the base `Field` received. */
    var kwargs: Kwargs
    const batchFirst: bool
    const initToken: Option<string>
    const eosToken: Option<string>
    const padToken: Option<string>
    /** `self.vocab.itos`. */
    const itos: seq<string>

    /** `__init__(**kwargs)`, with the base `Field`'s attributes given directly. */
    constructor(kwargs: Kwargs, batchFirst: bool, initToken: Option<string>, eosToken: Option<string>,
                padToken: Option<string>, itos: seq<string>)
      ensures useRevtok <==> Get(kwargs, "tokenize") != ListType
      ensures this.kwargs == WithDefaults(kwargs)
      ensures this.batchFirst == batchFirst && this.itos == itos
      ensures this.initToken == initToken && this.eosToken == eosToken && this.padToken == padToken
    {
      if Get(kwargs, "tokenize") == ListType {
        useRevtok := false;
      } else {
        useRevtok := true;
      }
      var kw := kwargs;
      if Get(kw, "tokenize") == NoneValue {
        kw := kw["tokenize" := Text("revtok")];
      }
      if "unk_token" !in kw {
        kw := kw["unk_token" := Text(" UNK ")];
      }
      this.kwargs := kw;
      this.batchFirst := batchFirst;
      this.initToken := initToken;
      this.eosToken := eosToken;
      this.padToken := padToken;
      this.itos := itos;
    }

    /** The examples of the batch, one per row after the optional transpose. */
    function Examples(batch: seq<seq<nat>>, cols: nat): (r: seq<seq<nat>>)
      requires Rectangular(batch, cols)
      ensures |r| == if batchFirst then |batch| else cols
      ensures forall e :: 0 <= e < |r| ==> |r[e]| == if batchFirst then cols else |batch|
      ensures !batchFirst ==> forall e, p :: 0 <= e < cols && 0 <= p < |batch| ==> r[e][p] == batch[p][e]
      ensures batchFirst ==> r == batch
    {
      if batchFirst then batch else Transposed(batch, cols)
    }

    /** Every id of the batch has a word. */
    predicate InVocab(batch: seq<seq<nat>>)
    {
      forall r, c :: 0 <= r < |batch| && 0 <= c < |batch[r]| ==> batch[r][c] < |itos|
    }

    /** Every id of one example has a word. */
    predicate ExampleInVocab(ids: seq<nat>)
    {
      forall i :: 0 <= i < |ids| ==> ids[i] < |itos|
    }

    /** One example's words: looked up, cut at the end token, specials dropped. */
    function ReverseExample(ids: seq<nat>): (r: seq<string>)
      requires ExampleInVocab(ids)
      ensures forall i :: 0 <= i < |r| ==> Some(r[i]) != eosToken && Ordinary(r[i], initToken, padToken)
      ensures forall w :: w in r ==> w in itos
    {
      var words := Words(ids, itos);
      var kept := KeepOrdinary(Trimmed(words, eosToken), initToken, padToken);
      assert forall i :: 0 <= i < |kept| ==> kept[i] in multiset(Trimmed(words, eosToken));
      kept
    }

    /** `_reverse_base(batch)`: one list of words per example; an id without a word raises `IndexError`. */
    function ReverseBase(batch: seq<seq<nat>>, cols: nat): (r: Result<seq<seq<string>>, ReverseError>)
      requires Rectangular(batch, cols)
      ensures r.Err? <==> !InVocab(batch)
      ensures r.Err? ==> r.error == IndexError
      ensures r.Ok? ==> |r.value| == if batchFirst then |batch| else cols
      ensures r.Ok? ==> forall e :: 0 <= e < |r.value| ==>
        ExampleInVocab(Examples(batch, cols)[e]) && r.value[e] == ReverseExample(Examples(batch, cols)[e])
    {
      if !InVocab(batch) then Err(IndexError)
      else
        var examples := Examples(batch, cols);
        assert forall e :: 0 <= e < |examples| ==> ExampleInVocab(examples[e]);
        Ok(seq(|examples|, e requires 0 <= e < |examples| => ReverseExample(examples[e])))
    }

    /** `reverse_almond(batch)`: each example's words joined by single spaces. */
    function ReverseAlmond(batch: seq<seq<nat>>, cols: nat): (r: Result<seq<string>, ReverseError>)
      requires Rectangular(batch, cols)
      ensures r.Err? <==> !InVocab(batch)
      ensures r.Err? ==> r.error == IndexError
      ensures r.Ok? ==> |r.value| == if batchFirst then |batch| else cols
      ensures r.Ok? ==> forall e :: 0 <= e < |r.value| ==> r.value[e] == Join(" ", ReverseBase(batch, cols).value[e])
    {
      match ReverseBase(batch, cols)
      case Err(err) => Err(err)
      case Ok(words) => Ok(seq(|words|, e requires 0 <= e < |words| => Join(" ", words[e])))
    }

    /** `reverse(batch)`: detokenized by revtok (a parameter here), or concatenated. */
    function Reverse(batch: seq<seq<nat>>, cols: nat, detokenize: seq<string> -> string): (r: Result<seq<string>, ReverseError>)
      requires Rectangular(batch, cols)
      reads this
      ensures r.Err? <==> !InVocab(batch)
      ensures r.Err? ==> r.error == IndexError
      ensures r.Ok? ==> |r.value| == if batchFirst then |batch| else cols
      ensures r.Ok? ==> forall e :: 0 <= e < |r.value| ==>
        var words := ReverseBase(batch, cols).value[e];
        r.value[e] == if useRevtok then detokenize(words) else Concat(words)
    {
      match ReverseBase(batch, cols)
      case Err(err) => Err(err)
      case Ok(words) =>
        JoinEmptyAll(words);
        if useRevtok then Ok(seq(|words|, e requires 0 <= e < |words| => detokenize(words[e])))
        else Ok(seq(|words|, e requires 0 <= e < |words| => Join("", words[e])))
    }

    /** An example with no special token and no end token reads back as its words. */
    lemma ReverseExamplePlain(ids: seq<nat>)
      requires forall i :: 0 <= i < |ids| ==> ids[i] < |itos|
      requires forall i :: 0 <= i < |ids| ==> Some(itos[ids[i]]) != eosToken && Ordinary(itos[ids[i]], initToken, padToken)
      ensures ReverseExample(ids) == Words(ids, itos)
    {
      var words := Words(ids, itos);
      TrimmedWithoutEos(words, eosToken);
      KeepOrdinaryAll(words, initToken, padToken);
    }

    /**
     * `reverse_almond` of such an example splits back on spaces into its
     * words, provided no word contains a space and the example is not empty.
     */
    lemma ReverseAlmondSplits(batch: seq<seq<nat>>, cols: nat, e: nat)
      requires Rectangular(batch, cols) && InVocab(batch) && batchFirst
      requires e < |batch| && cols > 0
      requires forall i :: 0 <= i < cols ==>
        Some(itos[batch[e][i]]) != eosToken && Ordinary(itos[batch[e][i]], initToken, padToken) && ' ' !in itos[batch[e][i]]
      ensures ReverseAlmond(batch, cols).Ok? && Split(ReverseAlmond(batch, cols).value[e], ' ') == Words(batch[e], itos)
    {
      ReverseExamplePlain(batch[e]);
      SplitJoin(Words(batch[e], itos), ' ');
    }
  }
}
