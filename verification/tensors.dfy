/**
 * Beam-search bookkeeping of the incremental decoder: `expand_for_beam_search`
 * and `reorder_for_beam_search`. A tensor of any rank is a nested array; a
 * decoder state is a tensor or an arbitrarily nested tuple or list of states.
 * "Along dimension d" means at nesting depth d.
 */
module Tensors {

  /** A dense tensor: a scalar cell, or an array of sub-tensors along the next dimension. */
  datatype Nd<T> = Cell(v: T) | Arr(items: seq<Nd<T>>)

  /** Decoder state as the wrapper holds it: a tensor, or a tuple or a list of states. */
  datatype State<T> = Leaf(t: Nd<T>) | Tup(parts: seq<State<T>>) | Lst(parts: seq<State<T>>)

  /** 0, 1, ..., n-1: the identity `new_order`. */
  function Range(n: nat): seq<nat>
  {
    seq(n, i requires 0 <= i < n => i)
  }

  /** The tensor has a dimension `d`, i.e. its rank exceeds `d`. */
  predicate HasDim<T>(t: Nd<T>, d: nat)
  {
    t.Arr? && (d > 0 ==> forall i :: 0 <= i < |t.items| ==> HasDim(t.items[i], d - 1))
  }

  /** The tensor has extent `n` along dimension `d`. */
  predicate Sized<T>(t: Nd<T>, d: nat, n: nat)
  {
    t.Arr? &&
    if d == 0 then |t.items| == n
    else forall i :: 0 <= i < |t.items| ==> Sized(t.items[i], d - 1, n)
  }

  /** Every index of `order` is in range along dimension `d` (otherwise `t[new_order]` raises). */
  predicate IndexableBy<T>(t: Nd<T>, order: seq<nat>, d: nat)
  {
    t.Arr? &&
    if d == 0 then forall j :: 0 <= j < |order| ==> order[j] < |t.items|
    else forall i :: 0 <= i < |t.items| ==> IndexableBy(t.items[i], order, d - 1)
  }

  /** The slice at index `i` along dimension `d` (as torch's `select`); total, with a junk default. */
  function Select<T>(t: Nd<T>, d: nat, i: nat): Nd<T>
  {
    match t
    case Cell(_) => t
    case Arr(items) =>
      if d == 0 then (if i < |items| then items[i] else t)
      else Arr(seq(|items|, j requires 0 <= j < |items| => Select(items[j], d - 1, i)))
  }

  function Repeat<T>(x: T, k: nat): seq<T>
  {
    seq(k, _ => x)
  }

  /**
   * Every entry repeated `k` times in a row: what `unsqueeze(dim+1)`, `expand`
   * to `k` along the new dimension and `view` with the merged size compute.
   */
  function Stretch<T>(xs: seq<T>, k: nat): (r: seq<T>)
    ensures forall x :: x in r ==> x in xs
    ensures k > 0 ==> forall x :: x in xs ==> x in r
  {
    if |xs| == 0 then []
    else
      assert k > 0 ==> Repeat(xs[0], k)[0] == xs[0];
      assert forall x :: x in xs ==> x == xs[0] || x in xs[1..];
      Repeat(xs[0], k) + Stretch(xs[1..], k)
  }

  /** expand_for_beam_search on one tensor: replicate along dimension `d` by `k`. */
  function Expand<T>(t: Nd<T>, k: nat, d: nat): (r: Nd<T>)
    requires HasDim(t, d)
    ensures r.Arr?
    ensures d == 0 ==> forall x :: x in r.items ==> x in t.items
    ensures d > 0 ==> |r.items| == |t.items|
  {
    if d == 0 then Arr(Stretch(t.items, k))
    else Arr(seq(|t.items|, i requires 0 <= i < |t.items| => Expand(t.items[i], k, d - 1)))
  }

  /** reorder_for_beam_search on one tensor: entry j along `d` becomes entry `order[j]`. */
  function Reorder<T>(t: Nd<T>, order: seq<nat>, d: nat): (r: Nd<T>)
    requires IndexableBy(t, order, d)
    ensures HasDim(r, d)
    ensures Sized(r, d, |order|)
  {
    if d == 0 then Arr(seq(|order|, j requires 0 <= j < |order| => t.items[order[j]]))
    else Arr(seq(|t.items|, i requires 0 <= i < |t.items| => Reorder(t.items[i], order, d - 1)))
  }

  /** Applying `second` to the result of applying `first`. */
  function Compose(first: seq<nat>, second: seq<nat>): seq<nat>
    requires forall j :: 0 <= j < |second| ==> second[j] < |first|
  {
    seq(|second|, j requires 0 <= j < |second| => first[second[j]])
  }

  // ---------------------------------------------------------------------------
  // Stretch: the replication of one dimension

  lemma {:induction false} StretchLength<T>(xs: seq<T>, k: nat)
    ensures |Stretch(xs, k)| == |xs| * k
  {
    if |xs| > 0 {
      StretchLength(xs[1..], k);
      assert |xs| * k == k + (|xs| - 1) * k;
    }
  }

  /** Copy `j` of entry `b` sits at position `b * k + j` of the stretched sequence. */
  lemma {:induction false} StretchCopy<T>(xs: seq<T>, k: nat, b: nat, j: nat)
    requires b < |xs| && j < k
    ensures |Stretch(xs, k)| == |xs| * k && b * k + j < |xs| * k
    ensures Stretch(xs, k)[b * k + j] == xs[b]
  {
    StretchLength(xs, k);
    StretchLength(xs[1..], k);
    var head, rest := Repeat(xs[0], k), Stretch(xs[1..], k);
    assert Stretch(xs, k) == head + rest;
    assert |xs| * k == k + (|xs| - 1) * k;
    if b == 0 {
      assert (|xs| - 1) * k >= 0;
      assert Stretch(xs, k)[j] == head[j];
    } else {
      StretchCopy(xs[1..], k, b - 1, j);
      assert b * k + j == k + ((b - 1) * k + j);
      assert Stretch(xs, k)[b * k + j] == rest[(b - 1) * k + j];
    }
  }

  /** Entry `i` of the stretched sequence is original entry `i / k`. */
  lemma StretchAt<T>(xs: seq<T>, k: nat, i: nat)
    requires i < |xs| * k
    ensures k > 0 && i / k < |xs|
    ensures |Stretch(xs, k)| == |xs| * k
    ensures Stretch(xs, k)[i] == xs[i / k]
  {
    assert k > 0 && i / k < |xs|;
    assert i == (i / k) * k + i % k && i % k < k;
    StretchCopy(xs, k, i / k, i % k);
  }

  lemma {:induction false} StretchOne<T>(xs: seq<T>)
    ensures Stretch(xs, 1) == xs
  {
    if |xs| > 0 {
      StretchOne(xs[1..]);
      assert Repeat(xs[0], 1) == [xs[0]];
    }
  }

  // ---------------------------------------------------------------------------
  // Expansion of one tensor

  lemma {:induction false} SizedHasDim<T>(t: Nd<T>, d: nat, n: nat)
    requires Sized(t, d, n)
    ensures HasDim(t, d)
  {
    if d > 0 {
      forall i | 0 <= i < |t.items| ensures HasDim(t.items[i], d - 1) {
        SizedHasDim(t.items[i], d - 1, n);
      }
    }
  }

  /**
   * Expanding by `k` along `d` yields extent `n * k` there, and slice `i` of the
   * result is slice `i / k` of the input: every batch element appears `k` times
   * contiguously.
   */
  lemma {:induction false} ExpandSelect<T>(t: Nd<T>, k: nat, d: nat, n: nat, i: nat)
    requires Sized(t, d, n) && i < n * k
    ensures HasDim(t, d)
    ensures Sized(Expand(t, k, d), d, n * k)
    ensures Select(Expand(t, k, d), d, i) == Select(t, d, i / k)
  {
    SizedHasDim(t, d, n);
    var e := Expand(t, k, d);
    if d == 0 {
      StretchAt(t.items, k, i);
    } else {
      forall j | 0 <= j < |t.items|
        ensures Sized(e.items[j], d - 1, n * k)
        ensures Select(e.items[j], d - 1, i) == Select(t.items[j], d - 1, i / k)
      {
        ExpandSelect(t.items[j], k, d - 1, n, i);
      }
    }
  }

  /** Expanding with factor one changes nothing. */
  lemma {:induction false} ExpandOne<T>(t: Nd<T>, d: nat)
    requires HasDim(t, d)
    ensures Expand(t, 1, d) == t
  {
    if d == 0 {
      StretchOne(t.items);
    } else {
      forall i | 0 <= i < |t.items| ensures Expand(t.items[i], 1, d - 1) == t.items[i] {
        ExpandOne(t.items[i], d - 1);
      }
      assert Expand(t, 1, d).items == t.items;
    }
  }

  // ---------------------------------------------------------------------------
  // Reordering of one tensor

  lemma {:induction false} SizedIndexable<T>(t: Nd<T>, order: seq<nat>, d: nat, n: nat)
    requires Sized(t, d, n)
    requires forall j :: 0 <= j < |order| ==> order[j] < n
    ensures IndexableBy(t, order, d)
  {
    if d > 0 {
      forall i | 0 <= i < |t.items| ensures IndexableBy(t.items[i], order, d - 1) {
        SizedIndexable(t.items[i], order, d - 1, n);
      }
    }
  }

  /**
   * Reordering along `d` leaves `|order|` slices there, and slice `j` of the
   * result is slice `order[j]` of the input.
   */
  lemma {:induction false} ReorderSelect<T>(t: Nd<T>, order: seq<nat>, d: nat, j: nat)
    requires IndexableBy(t, order, d) && j < |order|
    ensures Sized(Reorder(t, order, d), d, |order|)
    ensures Select(Reorder(t, order, d), d, j) == Select(t, d, order[j])
  {
    if d > 0 {
      var r := Reorder(t, order, d);
      forall i | 0 <= i < |t.items|
        ensures Sized(r.items[i], d - 1, |order|)
        ensures Select(r.items[i], d - 1, j) == Select(t.items[i], d - 1, order[j])
      {
        ReorderSelect(t.items[i], order, d - 1, j);
      }
    }
  }

  /** The extent along `d` after a reorder is the length of the order, whatever the order. */
  lemma {:induction false} ReorderSized<T>(t: Nd<T>, order: seq<nat>, d: nat)
    requires IndexableBy(t, order, d)
    ensures Sized(Reorder(t, order, d), d, |order|)
  {
    if d > 0 {
      var r := Reorder(t, order, d);
      forall i | 0 <= i < |t.items| ensures Sized(r.items[i], d - 1, |order|) {
        ReorderSized(t.items[i], order, d - 1);
      }
    }
  }

  /** The identity order leaves a tensor unchanged. */
  lemma {:induction false} ReorderIdentity<T>(t: Nd<T>, d: nat, n: nat)
    requires Sized(t, d, n)
    ensures IndexableBy(t, Range(n), d)
    ensures Reorder(t, Range(n), d) == t
  {
    SizedIndexable(t, Range(n), d, n);
    if d == 0 {
      assert Reorder(t, Range(n), d).items == t.items;
    } else {
      forall i | 0 <= i < |t.items| ensures Reorder(t.items[i], Range(n), d - 1) == t.items[i] {
        ReorderIdentity(t.items[i], d - 1, n);
      }
      assert Reorder(t, Range(n), d).items == t.items;
    }
  }

  /** Two reorders in a row are one reorder by the composed order. */
  lemma {:induction false} ReorderCompose<T>(t: Nd<T>, first: seq<nat>, second: seq<nat>, d: nat)
    requires IndexableBy(t, first, d)
    requires forall j :: 0 <= j < |second| ==> second[j] < |first|
    ensures IndexableBy(Reorder(t, first, d), second, d)
    ensures IndexableBy(t, Compose(first, second), d)
    ensures Reorder(Reorder(t, first, d), second, d) == Reorder(t, Compose(first, second), d)
  {
    ReorderSized(t, first, d);
    SizedIndexable(Reorder(t, first, d), second, d, |first|);
    var c := Compose(first, second);
    if d == 0 {
      assert Reorder(Reorder(t, first, d), second, d).items == Reorder(t, c, d).items;
    } else {
      var r := Reorder(t, first, d);
      forall i | 0 <= i < |t.items|
        ensures IndexableBy(t.items[i], c, d - 1)
        ensures Reorder(r.items[i], second, d - 1) == Reorder(t.items[i], c, d - 1)
      {
        ReorderCompose(t.items[i], first, second, d - 1);
      }
      assert Reorder(r, second, d).items == Reorder(t, c, d).items;
    }
  }

  // ---------------------------------------------------------------------------
  // The source's route: permute dim to the front, index, permute back

  /** The permutation `p` built by reorder_for_beam_search: identity with 0 and `dim` exchanged. */
  function AxisSwap(rank: nat, dim: nat): (p: seq<nat>)
    requires dim < rank
    ensures |p| == rank
  {
    Range(rank)[dim := 0][0 := dim]
  }

  /** `p` is its own inverse, which is why the source may apply the same `permute(*p)` twice. */
  lemma AxisSwapSelfInverse(rank: nat, dim: nat)
    requires dim < rank
    ensures forall i :: 0 <= i < rank ==> AxisSwap(rank, dim)[i] < rank
    ensures forall i :: 0 <= i < rank ==> AxisSwap(rank, dim)[AxisSwap(rank, dim)[i]] == i
  {
  }

  /** Exchange dimensions 0 and 1 of a tensor whose rows all have `cols` entries. */
  function Transpose<T>(t: Nd<T>, cols: nat): Nd<T>
    requires Sized(t, 1, cols)
  {
    Arr(seq(cols, c requires 0 <= c < cols =>
      Arr(seq(|t.items|, i requires 0 <= i < |t.items| =>
        assert Sized(t.items[i], 0, cols); t.items[i].items[c]))))
  }

  /** Transposing twice gives the tensor back. */
  lemma TransposeTwice<T>(t: Nd<T>, cols: nat)
    requires Sized(t, 1, cols)
    ensures Sized(Transpose(t, cols), 1, |t.items|)
    ensures Transpose(Transpose(t, cols), |t.items|) == t
  {
    var u := Transpose(Transpose(t, cols), |t.items|);
    forall i | 0 <= i < |t.items| ensures u.items[i] == t.items[i] {
      assert u.items[i].items == t.items[i].items;
    }
    assert u.items == t.items;
  }

  /**
   * reorder_for_beam_search as written for `dim` 0 or 1: permute so that `dim`
   * comes first (a no-op for 0, a transpose for 1), index with `order`, and
   * permute back. `cols` is the tensor's extent along dimension 1.
   */
  function PermuteIndexPermute<T>(t: Nd<T>, order: seq<nat>, d: nat, cols: nat): (r: Nd<T>)
    requires d <= 1
    requires d == 0 ==> IndexableBy(t, order, 0)
    requires d == 1 ==> Sized(t, 1, cols) && forall j :: 0 <= j < |order| ==> order[j] < cols
    ensures Sized(r, d, |order|)
    ensures d == 1 ==> |r.items| == |t.items|
  {
    if d == 0 then Reorder(t, order, 0)
    else
      var front := Transpose(t, cols);
      TransposeTwice(t, cols);
      var picked := Reorder(front, order, 0);
      assert Sized(picked, 1, |t.items|);
      Transpose(picked, |t.items|)
  }

  /** The permute-index-permute route agrees with reordering directly along the dimension. */
  lemma PermuteRouteAgrees<T>(t: Nd<T>, order: seq<nat>, d: nat, cols: nat)
    requires d <= 1
    requires d == 0 ==> IndexableBy(t, order, 0)
    requires d == 1 ==> Sized(t, 1, cols) && forall j :: 0 <= j < |order| ==> order[j] < cols
    ensures IndexableBy(t, order, d)
    ensures PermuteIndexPermute(t, order, d, cols) == Reorder(t, order, d)
  {
    if d == 1 {
      SizedIndexable(t, order, 1, cols);
      var u := PermuteIndexPermute(t, order, d, cols);
      var r := Reorder(t, order, d);
      forall i | 0 <= i < |t.items| ensures u.items[i] == r.items[i] {
        assert r.items[i] == Reorder(t.items[i], order, 0);
        assert Sized(t.items[i], 0, cols);
        assert u.items[i].items == r.items[i].items;
      }
      assert u.items == r.items;
    }
  }

  // ---------------------------------------------------------------------------
  // Nested tuples and lists of tensors

  predicate StateHasDim<T>(s: State<T>, d: nat)
  {
    match s
    case Leaf(t) => HasDim(t, d)
    case Tup(ps) => forall i :: 0 <= i < |ps| ==> StateHasDim(ps[i], d)
    case Lst(ps) => forall i :: 0 <= i < |ps| ==> StateHasDim(ps[i], d)
  }

  /** Every tensor of the state has extent `n` along `d`. */
  predicate StateSized<T>(s: State<T>, d: nat, n: nat)
  {
    match s
    case Leaf(t) => Sized(t, d, n)
    case Tup(ps) => forall i :: 0 <= i < |ps| ==> StateSized(ps[i], d, n)
    case Lst(ps) => forall i :: 0 <= i < |ps| ==> StateSized(ps[i], d, n)
  }

  predicate StateIndexableBy<T>(s: State<T>, order: seq<nat>, d: nat)
  {
    match s
    case Leaf(t) => IndexableBy(t, order, d)
    case Tup(ps) => forall i :: 0 <= i < |ps| ==> StateIndexableBy(ps[i], order, d)
    case Lst(ps) => forall i :: 0 <= i < |ps| ==> StateIndexableBy(ps[i], order, d)
  }

  /** The same skeleton of tuples and lists, with tensors in the same places. */
  predicate SameShape<T>(a: State<T>, b: State<T>)
  {
    match a
    case Leaf(_) => b.Leaf?
    case Tup(ps) => b.Tup? && |ps| == |b.parts| && forall i :: 0 <= i < |ps| ==> SameShape(ps[i], b.parts[i])
    case Lst(ps) => b.Lst? && |ps| == |b.parts| && forall i :: 0 <= i < |ps| ==> SameShape(ps[i], b.parts[i])
  }

  /** expand_for_beam_search: recurse through tuples and lists, expand every tensor. */
  function ExpandState<T>(s: State<T>, k: nat, d: nat): (r: State<T>)
    requires StateHasDim(s, d)
    ensures SameShape(s, r)
  {
    match s
    case Leaf(t) => Leaf(Expand(t, k, d))
    case Tup(ps) => Tup(seq(|ps|, i requires 0 <= i < |ps| => ExpandState(ps[i], k, d)))
    case Lst(ps) => Lst(seq(|ps|, i requires 0 <= i < |ps| => ExpandState(ps[i], k, d)))
  }

  /** reorder_for_beam_search: recurse through tuples and lists, reorder every tensor. */
  function ReorderState<T>(s: State<T>, order: seq<nat>, d: nat): (r: State<T>)
    requires StateIndexableBy(s, order, d)
    ensures SameShape(s, r) && StateSized(r, d, |order|)
  {
    match s
    case Leaf(t) => Leaf(Reorder(t, order, d))
    case Tup(ps) => Tup(seq(|ps|, i requires 0 <= i < |ps| => ReorderState(ps[i], order, d)))
    case Lst(ps) => Lst(seq(|ps|, i requires 0 <= i < |ps| => ReorderState(ps[i], order, d)))
  }

  /**
   * Expansion keeps the container kinds, lengths and order and turns extent `n`
   * along `d` into `n * k` in every tensor.
   */
  lemma {:induction false} ExpandStateShape<T>(s: State<T>, k: nat, d: nat, n: nat)
    requires StateSized(s, d, n)
    ensures StateHasDim(s, d)
    ensures SameShape(s, ExpandState(s, k, d))
    ensures StateSized(ExpandState(s, k, d), d, n * k)
  {
    match s
    case Leaf(t) =>
      SizedHasDim(t, d, n);
      if n * k > 0 {
        ExpandSelect(t, k, d, n, 0);
      } else {
        ExpandSizedEmpty(t, k, d, n);
      }
    case Tup(ps) =>
      forall i | 0 <= i < |ps|
        ensures StateHasDim(ps[i], d)
        ensures SameShape(ps[i], ExpandState(ps[i], k, d))
        ensures StateSized(ExpandState(ps[i], k, d), d, n * k)
      {
        ExpandStateShape(ps[i], k, d, n);
      }
    case Lst(ps) =>
      forall i | 0 <= i < |ps|
        ensures StateHasDim(ps[i], d)
        ensures SameShape(ps[i], ExpandState(ps[i], k, d))
        ensures StateSized(ExpandState(ps[i], k, d), d, n * k)
      {
        ExpandStateShape(ps[i], k, d, n);
      }
  }

  /** The extent statement of ExpandSelect, also when the expanded extent is zero. */
  lemma {:induction false} ExpandSizedEmpty<T>(t: Nd<T>, k: nat, d: nat, n: nat)
    requires Sized(t, d, n) && n * k == 0
    ensures HasDim(t, d)
    ensures Sized(Expand(t, k, d), d, 0)
  {
    SizedHasDim(t, d, n);
    if d == 0 {
      StretchLength(t.items, k);
    } else {
      var e := Expand(t, k, d);
      forall i | 0 <= i < |t.items| ensures Sized(e.items[i], d - 1, 0) {
        ExpandSizedEmpty(t.items[i], k, d - 1, n);
      }
    }
  }

  /** Expansion by `k` along `d` turns extent `n` into `n * k`. */
  lemma ExpandSized<T>(t: Nd<T>, k: nat, d: nat, n: nat)
    requires Sized(t, d, n)
    ensures HasDim(t, d)
    ensures Sized(Expand(t, k, d), d, n * k)
  {
    if n * k > 0 {
      ExpandSelect(t, k, d, n, 0);
    } else {
      ExpandSizedEmpty(t, k, d, n);
    }
  }

  /** Reordering keeps the container kinds, lengths and order; extent along `d` becomes `|order|`. */
  lemma {:induction false} ReorderStateShape<T>(s: State<T>, order: seq<nat>, d: nat, n: nat)
    requires StateSized(s, d, n)
    requires forall j :: 0 <= j < |order| ==> order[j] < n
    ensures StateIndexableBy(s, order, d)
    ensures SameShape(s, ReorderState(s, order, d))
    ensures StateSized(ReorderState(s, order, d), d, |order|)
  {
    match s
    case Leaf(t) =>
      SizedIndexable(t, order, d, n);
      ReorderSized(t, order, d);
    case Tup(ps) =>
      forall i | 0 <= i < |ps|
        ensures StateIndexableBy(ps[i], order, d)
        ensures SameShape(ps[i], ReorderState(ps[i], order, d))
        ensures StateSized(ReorderState(ps[i], order, d), d, |order|)
      {
        ReorderStateShape(ps[i], order, d, n);
      }
    case Lst(ps) =>
      forall i | 0 <= i < |ps|
        ensures StateIndexableBy(ps[i], order, d)
        ensures SameShape(ps[i], ReorderState(ps[i], order, d))
        ensures StateSized(ReorderState(ps[i], order, d), d, |order|)
      {
        ReorderStateShape(ps[i], order, d, n);
      }
  }

  /** The identity order leaves a whole nested state unchanged. */
  lemma {:induction false} ReorderStateIdentity<T>(s: State<T>, d: nat, n: nat)
    requires StateSized(s, d, n)
    ensures StateIndexableBy(s, Range(n), d)
    ensures ReorderState(s, Range(n), d) == s
  {
    match s
    case Leaf(t) =>
      ReorderIdentity(t, d, n);
    case Tup(ps) =>
      forall i | 0 <= i < |ps|
        ensures StateIndexableBy(ps[i], Range(n), d)
        ensures ReorderState(ps[i], Range(n), d) == ps[i]
      {
        ReorderStateIdentity(ps[i], d, n);
      }
      assert ReorderState(s, Range(n), d).parts == ps;
    case Lst(ps) =>
      forall i | 0 <= i < |ps|
        ensures StateIndexableBy(ps[i], Range(n), d)
        ensures ReorderState(ps[i], Range(n), d) == ps[i]
      {
        ReorderStateIdentity(ps[i], d, n);
      }
      assert ReorderState(s, Range(n), d).parts == ps;
  }

  /** Expansion followed by the identity reorder leaves the expanded state as it was. */
  lemma ExpandThenIdentity<T>(s: State<T>, k: nat, d: nat, n: nat)
    requires StateSized(s, d, n)
    ensures StateHasDim(s, d)
    ensures StateIndexableBy(ExpandState(s, k, d), Range(n * k), d)
    ensures ReorderState(ExpandState(s, k, d), Range(n * k), d) == ExpandState(s, k, d)
  {
    ExpandStateShape(s, k, d, n);
    ReorderStateIdentity(ExpandState(s, k, d), d, n * k);
  }
}
