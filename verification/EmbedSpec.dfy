// What an embedding is: tokenizer rows (embedding/tokenizer.go:101-150), masked mean pooling and
// L2 normalization (embedding/onnx.go:423-468), over real numbers.
module EmbedSpec {
  import opened Prelude

  // Token ids, attention mask and token types of one text, position by position.
  datatype Row = Row(ids: seq<int>, mask: seq<int>, types: seq<int>)

  predicate Shaped(row: Row, len: nat) { |row.ids| == len && |row.mask| == len && |row.types| == len }

  // The tokenizer library's answer for one text, or its error.
  type Tokenizer = string -> Option<Row>

  // The network: the hidden value at a position and dimension, given the row.
  type Network = (Row, nat, nat) -> real

  datatype Model = Model(tokenize: Tokenizer, network: Network, root: real -> real, maxSeqLen: nat, hiddenDim: nat)

  function Zeros(n: nat): (r: seq<int>)
    ensures |r| == n && forall i :: 0 <= i < n ==> r[i] == 0
  {
    seq(n, i => 0)
  }

  function PadTo(s: seq<int>, len: nat): (r: seq<int>)
    requires |s| <= len
  {
    s + Zeros(len - |s|)
  }

  function Pad(row: Row, len: nat): Row
    requires Shaped(row, |row.ids|) && |row.ids| <= len
  {
    Row(PadTo(row.ids, len), PadTo(row.mask, len), PadTo(row.types, len))
  }

  function Cut(row: Row, len: nat): Row
    requires len <= |row.ids| && len <= |row.mask| && len <= |row.types|
  {
    Row(row.ids[..len], row.mask[..len], row.types[..len])
  }

  // The length kept of an encoding.
  function KeptLen(raw: Row, maxLen: nat): (n: nat)
    ensures n <= maxLen && n <= |raw.ids| && n <= |raw.mask| && n <= |raw.types|
  {
    var n := if |raw.ids| > maxLen then maxLen else |raw.ids|;
    var n' := if |raw.mask| < n then |raw.mask| else n;
    if |raw.types| < n' then |raw.types| else n'
  }

  // The encoding cut to the length limit and filled up with zeros.
  function Padded(raw: Row, maxLen: nat): Row { Pad(Cut(raw, KeptLen(raw, maxLen)), maxLen) }

  // ---------------------------------------------------------------------
  // Pooling
  // ---------------------------------------------------------------------

  // The hidden values of one row.
  type Hidden = (nat, nat) -> real

  function MaskSum(mask: seq<int>): real {
    if mask == [] then 0.0
    else MaskSum(mask[..|mask| - 1]) + (if mask[|mask| - 1] == 0 then 0.0 else mask[|mask| - 1] as real)
  }

  function Weighted(h: Hidden, mask: seq<int>, d: nat): real {
    if mask == [] then 0.0
    else
      var s := |mask| - 1;
      Weighted(h, mask[..s], d) + (if mask[s] == 0 then 0.0 else h(s, d) * mask[s] as real)
  }

  function Mean(h: Hidden, mask: seq<int>, dim: nat): (v: seq<real>)
    ensures |v| == dim
  {
    var m := MaskSum(mask);
    seq(dim, d requires 0 <= d < dim => if m > 0.0 then Weighted(h, mask, d) / m else Weighted(h, mask, d))
  }

  function Times(x: real, y: real): real { x * y }

  function Square(x: real): real { Times(x, x) }

  function SumSquares(v: seq<real>): real {
    if v == [] then 0.0 else SumSquares(v[..|v| - 1]) + Square(v[|v| - 1])
  }

  function Scaled(v: seq<real>, c: real): (r: seq<real>)
    ensures |r| == |v| && forall d :: 0 <= d < |v| ==> r[d] == v[d] * c
  {
    seq(|v|, d requires 0 <= d < |v| => v[d] * c)
  }

  function Normalized(v: seq<real>, root: real -> real): (r: seq<real>)
    ensures |r| == |v|
  {
    var norm := root(SumSquares(v));
    if norm > 0.0 then Scaled(v, 1.0 / norm) else v
  }

  function Pool(h: Hidden, mask: seq<int>, dim: nat, root: real -> real): (v: seq<real>)
    ensures |v| == dim
  {
    Normalized(Mean(h, mask, dim), root)
  }

  function HiddenOf(network: Network, row: Row): Hidden { (s: nat, d: nat) => network(row, s, d) }

  function RowVector(m: Model, row: Row): (v: seq<real>)
    ensures |v| == m.hiddenDim
  {
    Pool(HiddenOf(m.network, row), row.mask, m.hiddenDim, m.root)
  }

  // The row of one text, and how many of its positions hold tokens; none for a text that does not encode.
  function Encode(m: Model, text: string): Option<(Row, nat)> {
    if m.maxSeqLen < 2 then None
    else
      match m.tokenize(text)
      case None => None
      case Some(raw) => Some((Padded(raw, m.maxSeqLen), KeptLen(raw, m.maxSeqLen)))
  }

  // The embedding of one text on its own.
  function EmbedAlone(m: Model, text: string): Option<seq<real>> {
    match Encode(m, text)
    case None => None
    case Some(e) => Some(RowVector(m, e.0))
  }

  // Only unmasked positions count.
  predicate Agree(h: Hidden, g: Hidden, mask: seq<int>, dim: nat) {
    forall s: nat, d: nat :: s < |mask| && mask[s] != 0 && d < dim ==> h(s, d) == g(s, d)
  }

  lemma {:induction false} WeightedAgree(h: Hidden, g: Hidden, mask: seq<int>, dim: nat, d: nat)
    requires Agree(h, g, mask, dim) && d < dim
    ensures Weighted(h, mask, d) == Weighted(g, mask, d)
  {
    if mask != [] {
      var init := mask[..|mask| - 1];
      assert forall s: nat :: s < |init| ==> init[s] == mask[s];
      WeightedAgree(h, g, init, dim, d);
    }
  }

  lemma PoolAgrees(h: Hidden, g: Hidden, mask: seq<int>, dim: nat, root: real -> real)
    requires Agree(h, g, mask, dim)
    ensures Pool(h, mask, dim, root) == Pool(g, mask, dim, root)
  {
    hide Agree;
    forall d | 0 <= d < dim ensures Mean(h, mask, dim)[d] == Mean(g, mask, dim)[d] {
      WeightedAgree(h, g, mask, dim, d);
    }
    assert Mean(h, mask, dim) == Mean(g, mask, dim);
  }

  // ---------------------------------------------------------------------
  // Padding does not matter
  // ---------------------------------------------------------------------

  // Hidden values at unmasked positions do not depend on trailing padding.
  ghost predicate IgnoresPadding(network: Network) {
    forall row: Row, len: nat, s: nat, d: nat ::
      Shaped(row, |row.ids|) && |row.ids| <= len && s < |row.ids| && row.mask[s] != 0 ==>
        network(Pad(row, len), s, d) == network(row, s, d)
  }

  lemma {:induction false} ZeroTail(h: Hidden, mask: seq<int>, len: nat, d: nat)
    requires |mask| <= len
    ensures MaskSum(PadTo(mask, len)) == MaskSum(mask)
    ensures Weighted(h, PadTo(mask, len), d) == Weighted(h, mask, d)
    decreases len
  {
    if |mask| == len {
      assert PadTo(mask, len) == mask;
    } else {
      assert PadTo(mask, len)[..len - 1] == PadTo(mask, len - 1);
      ZeroTail(h, mask, len - 1, d);
    }
  }

  lemma PoolZeroTail(h: Hidden, mask: seq<int>, len: nat, dim: nat, root: real -> real)
    requires |mask| <= len
    ensures Pool(h, PadTo(mask, len), dim, root) == Pool(h, mask, dim, root)
  {
    hide PadTo;
    forall d | 0 <= d < dim ensures Mean(h, PadTo(mask, len), dim)[d] == Mean(h, mask, dim)[d] {
      ZeroTail(h, mask, len, d);
    }
    assert Mean(h, PadTo(mask, len), dim) == Mean(h, mask, dim);
  }

  // A row and the same row with more padding have the same vector.
  lemma PaddingIrrelevant(m: Model, row: Row, len: nat)
    requires IgnoresPadding(m.network) && Shaped(row, |row.ids|) && |row.ids| <= len
    ensures RowVector(m, Pad(row, len)) == RowVector(m, row)
  {
    hide Pool;
    var h, g := HiddenOf(m.network, Pad(row, len)), HiddenOf(m.network, row);
    PoolZeroTail(h, row.mask, len, m.hiddenDim, m.root);
    PaddedAgree(m, row, len);
    PoolAgrees(h, g, row.mask, m.hiddenDim, m.root);
  }

  lemma PaddedAgree(m: Model, row: Row, len: nat)
    requires IgnoresPadding(m.network) && Shaped(row, |row.ids|) && |row.ids| <= len
    ensures Agree(HiddenOf(m.network, Pad(row, len)), HiddenOf(m.network, row), row.mask, m.hiddenDim)
  {
    hide Pad;
  }

  // Cutting an encoded row anywhere behind its kept tokens drops only zeros.
  lemma CutIsPadding(raw: Row, maxLen: nat, len: nat)
    requires KeptLen(raw, maxLen) <= len <= maxLen
    ensures Shaped(Padded(raw, maxLen), maxLen)
    ensures var cut := Cut(Padded(raw, maxLen), len);
            Shaped(cut, len) && Pad(cut, maxLen) == Padded(raw, maxLen)
  {
    CutZeros(raw.ids[..KeptLen(raw, maxLen)], maxLen, len);
    CutZeros(raw.mask[..KeptLen(raw, maxLen)], maxLen, len);
    CutZeros(raw.types[..KeptLen(raw, maxLen)], maxLen, len);
  }

  lemma CutZeros(s: seq<int>, maxLen: nat, len: nat)
    requires |s| <= len <= maxLen
    ensures |PadTo(s, maxLen)| == maxLen && PadTo(PadTo(s, maxLen)[..len], maxLen) == PadTo(s, maxLen)
  {
  }

  // Any bucket that holds the tokens gives the vector of the full row.
  lemma BucketVector(m: Model, raw: Row, len: nat)
    requires IgnoresPadding(m.network) && KeptLen(raw, m.maxSeqLen) <= len <= m.maxSeqLen
    ensures Shaped(Padded(raw, m.maxSeqLen), m.maxSeqLen)
    ensures RowVector(m, Cut(Padded(raw, m.maxSeqLen), len)) == RowVector(m, Padded(raw, m.maxSeqLen))
  {
    hide RowVector, Padded, IgnoresPadding, Pad, Cut, KeptLen;
    CutIsPadding(raw, m.maxSeqLen, len);
    PaddingIrrelevant(m, Cut(Padded(raw, m.maxSeqLen), len), m.maxSeqLen);
  }

  // ---------------------------------------------------------------------
  // Unit length
  // ---------------------------------------------------------------------

  ghost predicate IsRoot(root: real -> real) {
    forall x: real :: x >= 0.0 ==> root(x) >= 0.0 && Square(root(x)) == x
  }

  lemma {:induction false} ScaledSquares(v: seq<real>, c: real)
    ensures SumSquares(Scaled(v, c)) == Times(SumSquares(v), Square(c))
  {
    hide Times, Square;
    if v == [] {
      TimesZero(Square(c));
    } else {
      var n := |v| - 1;
      forall d | 0 <= d < n ensures Scaled(v, c)[..n][d] == Scaled(v[..n], c)[d] {}
      assert Scaled(v, c)[..n] == Scaled(v[..n], c);
      ScaledSquares(v[..n], c);
      Distribute(SumSquares(v[..n]), Square(v[n]), Square(c));
      var w := Scaled(v, c);
      assert SumSquares(w) == SumSquares(w[..n]) + Square(w[n]);
      assert SumSquares(v) == SumSquares(v[..n]) + Square(v[n]);
      ScaledSquare(v[n], c, w[n]);
    }
  }

  lemma TimesZero(x: real)
    ensures Times(0.0, x) == 0.0
  {
  }

  lemma ScaledSquare(x: real, c: real, y: real)
    requires y == x * c
    ensures Square(y) == Times(Square(x), Square(c))
  {
  }

  lemma Distribute(a: real, b: real, k: real)
    ensures Times(a + b, k) == Times(a, k) + Times(b, k)
  {
  }

  lemma ProductPositive(a: real, b: real)
    requires a > 0.0 && b > 0.0
    ensures Times(a, b) > 0.0
  {
  }

  lemma ProductOfNegatives(a: real, b: real)
    requires a < 0.0 && b < 0.0
    ensures Times(a, b) > 0.0
  {
  }

  lemma SquarePositive(x: real)
    ensures Square(x) >= 0.0
    ensures x != 0.0 ==> Square(x) > 0.0
  {
    hide Times;
    if x > 0.0 { ProductPositive(x, x); } else if x < 0.0 { ProductOfNegatives(x, x); } else { TimesZero(x); }
  }

  lemma {:induction false} SquaresNonNegative(v: seq<real>)
    ensures SumSquares(v) >= 0.0
    ensures forall d :: 0 <= d < |v| && v[d] != 0.0 ==> SumSquares(v) > 0.0
  {
    hide Square;
    if v != [] {
      var n := |v| - 1;
      SquaresNonNegative(v[..n]);
      SquarePositive(v[n]);
      assert forall d :: 0 <= d < n ==> v[d] == v[..n][d];
    }
  }

  // Every vector has length one, except that the zero mean stays zero.
  lemma UnitLength(m: Model, row: Row)
    requires IsRoot(m.root)
    ensures SumSquares(RowVector(m, row)) == 1.0
         || forall d :: 0 <= d < m.hiddenDim ==> RowVector(m, row)[d] == 0.0
  {
    hide Mean, Square;
    var v := Mean(HiddenOf(m.network, row), row.mask, m.hiddenDim);
    var norm := m.root(SumSquares(v));
    SquaresNonNegative(v);
    if norm > 0.0 {
      ScaledSquares(v, 1.0 / norm);
      InverseSquare(norm, 1.0 / norm);
    } else {
      assert norm == 0.0;
      SquareOfZero();
    }
  }

  lemma SquareOfZero()
    ensures Square(0.0) == 0.0
  {
  }

  lemma InverseSquare(n: real, i: real)
    requires n > 0.0 && i == 1.0 / n
    ensures Times(Square(n), Square(i)) == 1.0
  {
    assert n * i == 1.0;
    assert Times(Square(n), Square(i)) == (n * i) * (n * i);
  }

  // ---------------------------------------------------------------------
  // What a vector holds, told from the tokenizer's answer
  // ---------------------------------------------------------------------

  // The row of an encoding: the first n tokens, as many as all three lists and the limit allow, then zeros.
  predicate EncodingOf(raw: Row, maxLen: nat, row: Row, n: nat) {
    && |row.ids| == |row.mask| == |row.types| == maxLen
    && n <= maxLen && n <= |raw.ids| && n <= |raw.mask| && n <= |raw.types|
    && (n == maxLen || n == |raw.ids| || n == |raw.mask| || n == |raw.types|)
    && (forall p :: 0 <= p < n ==> row.ids[p] == raw.ids[p] && row.mask[p] == raw.mask[p] && row.types[p] == raw.types[p])
    && forall p :: n <= p < maxLen ==> row.ids[p] == 0 && row.mask[p] == 0 && row.types[p] == 0
  }

  lemma PaddedHolds(raw: Row, maxLen: nat)
    ensures EncodingOf(raw, maxLen, Padded(raw, maxLen), KeptLen(raw, maxLen))
  {
  }

  function Sum(n: nat, f: nat -> real): real { if n == 0 then 0.0 else Sum(n - 1, f) + f(n - 1) }

  // The mask at a position, the masked hidden value there, and the square of a coordinate.
  function MaskOf(row: Row): nat -> real { (s: nat) => if s < |row.mask| then row.mask[s] as real else 0.0 }

  function MaskedOf(m: Model, row: Row, d: nat): nat -> real { (s: nat) => m.network(row, s, d) * MaskOf(row)(s) }

  function SquaresOf(v: seq<real>): nat -> real { (d: nat) => if d < |v| then v[d] * v[d] else 0.0 }

  // Coordinate d is the mean of the hidden values d over the positions, weighted by the mask.
  ghost predicate IsMean(m: Model, row: Row, mean: seq<real>) {
    && |mean| == m.hiddenDim
    && forall d: nat :: d < m.hiddenDim ==> IsMeanAt(m, row, d, mean[d])
  }

  predicate IsMeanAt(m: Model, row: Row, d: nat, x: real) {
    var total, weighted := Sum(|row.mask|, MaskOf(row)), Sum(|row.mask|, MaskedOf(m, row, d));
    if total > 0.0 then x * total == weighted else x == weighted
  }

  // v is the mean divided by its length, when it has one.
  ghost predicate IsUnitOf(m: Model, mean: seq<real>, v: seq<real>) {
    var norm := m.root(Sum(|mean|, SquaresOf(mean)));
    && |v| == |mean|
    && if norm > 0.0 then forall d :: 0 <= d < |v| ==> v[d] * norm == mean[d] else v == mean
  }

  ghost predicate IsEmbedding(m: Model, text: string, v: seq<real>) {
    && m.maxSeqLen >= 2 && m.tokenize(text).Some?
    && exists row, n, mean :: EncodingOf(m.tokenize(text).value, m.maxSeqLen, row, n) && IsMean(m, row, mean) && IsUnitOf(m, mean, v)
  }

  lemma Quotient(a: real, b: real)
    requires b > 0.0
    ensures a / b * b == a && a * (1.0 / b) * b == a
  {
  }

  lemma {:induction false} MaskSumIs(row: Row, k: nat)
    requires k <= |row.mask|
    ensures MaskSum(row.mask[..k]) == Sum(k, MaskOf(row))
  {
    if k > 0 {
      MaskSumIs(row, k - 1);
      assert row.mask[..k][..k - 1] == row.mask[..k - 1];
    }
  }

  lemma MaskedAt(m: Model, row: Row, d: nat, s: nat)
    requires s < |row.mask|
    ensures MaskedOf(m, row, d)(s)
         == if row.mask[s] == 0 then 0.0 else HiddenOf(m.network, row)(s, d) * row.mask[s] as real
  {
    assert MaskOf(row)(s) == row.mask[s] as real;
    NoWeight(m.network(row, s, d));
  }

  lemma NoWeight(x: real)
    ensures x * 0.0 == 0.0
  {
  }

  lemma {:induction false} WeightedIs(m: Model, row: Row, d: nat, k: nat)
    requires k <= |row.mask|
    ensures Weighted(HiddenOf(m.network, row), row.mask[..k], d) == Sum(k, MaskedOf(m, row, d))
  {
    if k > 0 {
      WeightedIs(m, row, d, k - 1);
      assert row.mask[..k][..k - 1] == row.mask[..k - 1];
      MaskedAt(m, row, d, k - 1);
    }
  }

  lemma {:induction false} SumSquaresIs(v: seq<real>, k: nat)
    requires k <= |v|
    ensures SumSquares(v[..k]) == Sum(k, SquaresOf(v))
  {
    if k > 0 {
      SumSquaresIs(v, k - 1);
      assert v[..k][..k - 1] == v[..k - 1];
    }
  }

  lemma MeanIs(m: Model, row: Row)
    ensures IsMean(m, row, Mean(HiddenOf(m.network, row), row.mask, m.hiddenDim))
  {
    hide MaskSum, Weighted, Sum, MaskOf, MaskedOf, HiddenOf;
    var n := |row.mask|;
    assert row.mask[..n] == row.mask;
    MaskSumIs(row, n);
    var mean := Mean(HiddenOf(m.network, row), row.mask, m.hiddenDim);
    forall d: nat | d < m.hiddenDim ensures IsMeanAt(m, row, d, mean[d]) {
      WeightedIs(m, row, d, n);
      var total := Sum(n, MaskOf(row));
      if total > 0.0 {
        Quotient(Sum(n, MaskedOf(m, row, d)), total);
      }
    }
  }

  lemma UnitIs(m: Model, mean: seq<real>)
    ensures IsUnitOf(m, mean, Normalized(mean, m.root))
  {
    hide Sum, SumSquares, SquaresOf;
    assert mean[..|mean|] == mean;
    SumSquaresIs(mean, |mean|);
    var norm := m.root(SumSquares(mean));
    if norm > 0.0 {
      forall d | 0 <= d < |mean| ensures Normalized(mean, m.root)[d] * norm == mean[d] {
        Quotient(mean[d], norm);
      }
    }
  }

  // A text that encodes has the vector its tokens, the network and the mask determine; only an error of the tokenizer,
  // or a limit without room, leaves it without one.
  lemma EmbeddingMeans(m: Model, text: string)
    ensures match EmbedAlone(m, text)
            case Some(v) => IsEmbedding(m, text, v)
            case None => m.maxSeqLen < 2 || m.tokenize(text).None?
  {
    if EmbedAlone(m, text).Some? {
      hide Padded, KeptLen, EncodingOf, IsMean, IsUnitOf, Mean, Normalized;
      var raw := m.tokenize(text).value;
      var row := Padded(raw, m.maxSeqLen);
      PaddedHolds(raw, m.maxSeqLen);
      MeanIs(m, row);
      UnitIs(m, Mean(HiddenOf(m.network, row), row.mask, m.hiddenDim));
    }
  }
}
