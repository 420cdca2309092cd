// A persistent session with fixed-capacity tensors: embedding/onnx.go:172-394, 423-468.
module OnnxSession {
  import opened Prelude
  import opened EmbedSpec

  datatype Error = Closed | BadInput | Cancelled | Tokenize | Session | Inference

  datatype Result<T> = Ok(value: T) | Err(error: Error)

  // The runtime, the network card and the caller's context: what may go wrong, and how often it did.
  class World {
    ghost var faults: nat

    constructor () { faults := 0; }

    method Trouble() returns (b: bool)
      modifies this
      ensures faults == old(faults) + if b then 1 else 0
    {
      b := *;
      if b {
        faults := faults + 1;
      }
    }

    // Trouble that was noticed elsewhere.
    ghost method Note()
      modifies this
      ensures faults == old(faults) + 1
    {
      faults := faults + 1;
    }
  }

  // ---------------------------------------------------------------------
  // Row-major layout
  // ---------------------------------------------------------------------

  lemma RowFits(i: nat, n: nat, len: nat)
    requires i < n
    ensures 0 <= i * len && i * len + len <= n * len
  {
    ProductGrows(n, i, len);
  }

  lemma ProductGrows(q: int, p: int, len: nat)
    requires p < q
    ensures p * len + len <= q * len
  {
    var more := q - p - 1;
    assert more * len >= 0;
    assert q * len == p * len + len + more * len;
  }

  function Slice(flat: seq<int>, i: nat, len: nat): (r: seq<int>)
    requires i * len + len <= |flat|
    ensures |r| == len
  {
    assert i * len >= 0;
    flat[i * len..i * len + len]
  }

  // Row i of the three flattened inputs.
  function RowAt(ids: seq<int>, mask: seq<int>, types: seq<int>, i: nat, len: nat): Row
    requires i * len + len <= |ids| && i * len + len <= |mask| && i * len + len <= |types|
  {
    Row(Slice(ids, i, len), Slice(mask, i, len), Slice(types, i, len))
  }

  lemma HiddenFits(b: nat, n: nat, s: nat, len: nat, d: nat, dim: nat)
    requires b < n && s < len && d < dim
    ensures b * len + s < n * len
    ensures 0 <= (b * len + s) * dim + d < n * len * dim
  {
    RowFits(b, n, len);
    RowFits(b * len + s, n * len, dim);
  }

  lemma Unflatten(q: nat, d: nat, dim: nat)
    requires d < dim
    ensures (q * dim + d) / dim == q && (q * dim + d) % dim == d
  {
    var k := q * dim + d;
    assert k == (k / dim) * dim + k % dim;
    QuotientUnique(q, k / dim, d, k % dim, dim);
  }

  lemma QuotientUnique(q: int, p: int, d: nat, e: nat, dim: nat)
    requires d < dim && e < dim && q * dim + d == p * dim + e
    ensures q == p && d == e
  {
    if q > p {
      ProductGrows(q, p, dim);
    } else if q < p {
      ProductGrows(p, q, dim);
    }
  }

  // The hidden values of row b in a flat output tensor.
  function FlatHidden(out: seq<real>, b: nat, len: nat, dim: nat): Hidden {
    (s: nat, d: nat) => var k := (b * len + s) * dim + d; if 0 <= k < |out| then out[k] else 0.0
  }

  // ---------------------------------------------------------------------
  // Pooling
  // ---------------------------------------------------------------------

  method PoolRow(hidden: array<real>, mask: array<int>, b: nat, n: nat, len: nat, dim: nat, root: real -> real)
    returns (vector: seq<real>)
    requires b < n && n * len <= mask.Length && n * len * dim <= hidden.Length
    ensures b * len + len <= mask.Length
    ensures vector == Pool(FlatHidden(hidden[..], b, len, dim), Slice(mask[..], b, len), dim, root)
  {
    hide Weighted, MaskSum, SumSquares, FlatHidden, Slice;
    RowFits(b, n, len);
    ghost var h, m := FlatHidden(hidden[..], b, len, dim), Slice(mask[..], b, len);
    var embedding := new real[dim](d => 0.0);
    var maskSum := 0.0;
    PoolStart(h);
    for s := 0 to len
      invariant maskSum == MaskSum(m[..s])
      invariant forall d :: 0 <= d < dim ==> embedding[d] == Weighted(h, m[..s], d)
      invariant fresh(embedding)
    {
      SliceAt(mask[..], b, len, s);
      var weight := mask[b * len + s];
      PoolStep(h, m, s);
      if weight == 0 {
        continue;
      }
      maskSum := maskSum + weight as real;
      for d := 0 to dim
        invariant forall j :: 0 <= j < d ==> embedding[j] == Weighted(h, m[..s + 1], j)
        invariant forall j :: d <= j < dim ==> embedding[j] == Weighted(h, m[..s], j)
        invariant fresh(embedding)
      {
        HiddenFits(b, n, s, len, d, dim);
        TensorFits((b * len + s) * dim + d, n * len * dim, hidden.Length);
        FlatHiddenAt(hidden[..], b, len, dim, s, d);
        embedding[d] := embedding[d] + hidden[(b * len + s) * dim + d] * weight as real;
      }
    }
    assert m[..len] == m;
    if maskSum > 0.0 {
      for d := 0 to dim
        invariant forall j :: 0 <= j < d ==> embedding[j] == Weighted(h, m, j) / maskSum
        invariant forall j :: d <= j < dim ==> embedding[j] == Weighted(h, m, j)
        invariant fresh(embedding)
      {
        embedding[d] := embedding[d] / maskSum;
      }
    }
    assert embedding[..] == Mean(h, m, dim);
    vector := NormalizeInPlace(embedding, root);
  }

  method NormalizeInPlace(embedding: array<real>, root: real -> real) returns (vector: seq<real>)
    modifies embedding
    ensures vector == embedding[..] == Normalized(old(embedding[..]), root)
  {
    hide SumSquares;
    ghost var v := embedding[..];
    var norm := 0.0;
    SquaresStart();
    for d := 0 to embedding.Length
      invariant norm == SumSquares(v[..d]) && embedding[..] == v
    {
      SquaresStep(v, d);
      norm := norm + embedding[d] * embedding[d];
    }
    assert v[..|v|] == v;
    norm := root(norm);
    if norm > 0.0 {
      var inverse := 1.0 / norm;
      for d := 0 to embedding.Length
        invariant forall j :: 0 <= j < d ==> embedding[j] == v[j] * inverse
        invariant forall j :: d <= j < embedding.Length ==> embedding[j] == v[j]
      {
        embedding[d] := embedding[d] * inverse;
      }
      forall j | 0 <= j < |v| ensures embedding[..][j] == Scaled(v, inverse)[j] {}
      assert embedding[..] == Scaled(v, inverse);
    }
    vector := embedding[..];
  }

  lemma SquaresStart()
    ensures SumSquares([]) == 0.0
  {
  }

  lemma SquaresStep(v: seq<real>, d: nat)
    requires d < |v|
    ensures SumSquares(v[..d + 1]) == SumSquares(v[..d]) + v[d] * v[d]
  {
    assert v[..d + 1][..d] == v[..d];
  }

  lemma PoolStart(h: Hidden)
    ensures MaskSum([]) == 0.0 && forall d :: Weighted(h, [], d) == 0.0
  {
  }

  lemma PoolStep(h: Hidden, m: seq<int>, s: nat)
    requires s < |m|
    ensures MaskSum(m[..s + 1]) == MaskSum(m[..s]) + if m[s] == 0 then 0.0 else m[s] as real
    ensures forall d: nat :: Weighted(h, m[..s + 1], d) == Weighted(h, m[..s], d) + if m[s] == 0 then 0.0 else h(s, d) * m[s] as real
  {
    assert m[..s + 1][..s] == m[..s];
  }

  lemma SliceAt(flat: seq<int>, b: nat, len: nat, s: nat)
    requires b * len + len <= |flat| && s < len
    ensures 0 <= b * len + s < |flat| && Slice(flat, b, len)[s] == flat[b * len + s]
  {
    assert b * len >= 0;
  }

  lemma FlatHiddenAt(out: seq<real>, b: nat, len: nat, dim: nat, s: nat, d: nat)
    requires 0 <= (b * len + s) * dim + d < |out|
    ensures FlatHidden(out, b, len, dim)(s, d) == out[(b * len + s) * dim + d]
  {
  }

  lemma TensorFits(k: int, size: int, length: int)
    requires 0 <= k < size <= length
    ensures 0 <= k < length
  {
  }

  method MeanPoolAndNormalize(hidden: array<real>, mask: array<int>, n: nat, len: nat, dim: nat, root: real -> real)
    returns (vectors: seq<seq<real>>)
    requires n * len <= mask.Length && n * len * dim <= hidden.Length
    ensures |vectors| == n
    ensures forall b :: 0 <= b < n ==>
      b * len + len <= mask.Length
      && vectors[b] == Pool(FlatHidden(hidden[..], b, len, dim), Slice(mask[..], b, len), dim, root)
  {
    hide Pool, FlatHidden, Slice;
    vectors := [];
    for b := 0 to n
      invariant |vectors| == b
      invariant forall j :: 0 <= j < b ==>
        j * len + len <= mask.Length
        && vectors[j] == Pool(FlatHidden(hidden[..], j, len, dim), Slice(mask[..], j, len), dim, root)
    {
      var vector := PoolRow(hidden, mask, b, n, len, dim, root);
      vectors := vectors + [vector];
    }
  }

  // ---------------------------------------------------------------------
  // The session
  // ---------------------------------------------------------------------

  // What the runtime writes at position k of the output tensor.
  function OutputAt(network: Network, ids: seq<int>, mask: seq<int>, types: seq<int>, len: nat, dim: nat,
      k: nat): real {
    if dim == 0 || len == 0 then 0.0
    else
      var b, s, d := k / dim / len, k / dim % len, k % dim;
      if b * len + len <= |ids| && b * len + len <= |mask| && b * len + len <= |types| then
        network(RowAt(ids, mask, types, b, len), s, d)
      else 0.0
  }

  lemma OutputAtRow(network: Network, ids: seq<int>, mask: seq<int>, types: seq<int>, rows: nat, len: nat, dim: nat,
                    b: nat, s: nat, d: nat)
    requires b < rows && s < len && d < dim && |ids| == |mask| == |types| == rows * len
    ensures b * len + len <= rows * len && 0 <= (b * len + s) * dim + d
    ensures OutputAt(network, ids, mask, types, len, dim, (b * len + s) * dim + d)
         == network(RowAt(ids, mask, types, b, len), s, d)
  {
    hide RowAt;
    RowFits(b, rows, len);
    HiddenFits(b, rows, s, len, d, dim);
    Unflatten(b * len + s, d, dim);
    Unflatten(b, s, len);
  }

  class OnnxSession {
    const model: Model
    const batchSize: nat
    const seqLen: nat
    const inputIDs: array<int>
    const attMask: array<int>
    const tokenTypes: array<int>
    const output: array<real>
    const world: World
    var closed: bool

    constructor (model: Model, batchSize: nat, seqLen: nat, world: World)
      ensures Valid() && !closed && fresh(Tensors())
      ensures this.model == model && this.batchSize == batchSize && this.seqLen == seqLen && this.world == world
    {
      this.model := model;
      this.batchSize := batchSize;
      this.seqLen := seqLen;
      this.world := world;
      closed := false;
      ProductNat(batchSize, seqLen);
      ProductNat(batchSize * seqLen, model.hiddenDim);
      inputIDs := new int[batchSize * seqLen](i => 0);
      attMask := new int[batchSize * seqLen](i => 0);
      tokenTypes := new int[batchSize * seqLen](i => 0);
      output := new real[batchSize * seqLen * model.hiddenDim](i => 0.0);
    }

    function Tensors(): set<object> { {inputIDs, attMask, tokenTypes, output} }

    predicate Valid() {
      && inputIDs != attMask && inputIDs != tokenTypes && attMask != tokenTypes
      && inputIDs.Length == attMask.Length == tokenTypes.Length == batchSize * seqLen
      && output.Length == batchSize * seqLen * model.hiddenDim
    }

    // session.Run: the whole output tensor from the whole input tensors, or a failure.
    method Infer() returns (ok: bool)
      requires Valid()
      modifies output, world
      ensures world.faults >= old(world.faults) && (!ok ==> world.faults > old(world.faults))
      ensures ok ==> forall k :: 0 <= k < output.Length ==>
        output[k] == OutputAt(model.network, inputIDs[..], attMask[..], tokenTypes[..], seqLen, model.hiddenDim, k)
    {
      hide OutputAt;
      var fails := world.Trouble();
      if fails {
        return false;
      }
      ghost var ids, mask, types := inputIDs[..], attMask[..], tokenTypes[..];
      forall k | 0 <= k < output.Length {
        output[k] := OutputAt(model.network, inputIDs[..], attMask[..], tokenTypes[..], seqLen, model.hiddenDim, k);
      }
      assert inputIDs[..] == ids && attMask[..] == mask && tokenTypes[..] == types;
      return true;
    }

    // The first n rows, whatever an earlier call left in the tensors.
    method RunBatch(n: int, ids: seq<int>, mask: seq<int>, types: seq<int>) returns (r: Result<seq<seq<real>>>)
      requires Valid()
      modifies inputIDs, attMask, tokenTypes, output, world
      ensures world.faults >= old(world.faults)
      ensures r == Err(Closed) <==> closed
      ensures r == Err(BadInput) <==> !closed && !(1 <= n <= batchSize && |ids| == |mask| == |types| == n * seqLen)
      ensures r.Err? ==> r.error == Closed || r.error == BadInput || (r.error == Inference && world.faults > old(world.faults))
      ensures r.Ok? ==> n >= 0 && |r.value| == n && forall b :: 0 <= b < n ==>
        && b * seqLen + seqLen <= |ids| == |mask| == |types|
        && r.value[b] == RowVector(model, RowAt(ids, mask, types, b, seqLen))
    {
      hide RowVector, RowAt, Pool, OutputAt;
      if closed {
        return Err(Closed);
      }
      if n < 1 || n > batchSize {
        return Err(BadInput);
      }
      var want := n * seqLen;
      if |ids| != want || |mask| != want || |types| != want {
        return Err(BadInput);
      }
      WantFits(n, batchSize, seqLen);
      Fill(inputIDs, ids);
      Fill(attMask, mask);
      Fill(tokenTypes, types);
      var ok := Infer();
      if !ok {
        return Err(Inference);
      }
      WantFits(n * seqLen, batchSize * seqLen, model.hiddenDim);
      var pooled := MeanPoolAndNormalize(output, attMask, n, seqLen, model.hiddenDim, model.root);
      forall b | 0 <= b < n
        ensures b * seqLen + seqLen <= |ids|
        ensures pooled[b] == RowVector(model, RowAt(ids, mask, types, b, seqLen))
      {
        RowFits(b, n, seqLen);
        PooledRow(this, ids, mask, types, b);
      }
      r := Ok(pooled);
    }

    // One row through a session of capacity one; the input lengths leave nothing stale.
    method Run(ids: seq<int>, mask: seq<int>, types: seq<int>) returns (r: Result<seq<real>>)
      requires Valid() && batchSize == 1
      modifies inputIDs, attMask, tokenTypes, output, world
      ensures world.faults >= old(world.faults)
      ensures r == Err(Closed) <==> closed
      ensures r == Err(BadInput) <==> !closed && !(|ids| == |mask| == |types| == seqLen)
      ensures r.Err? ==> r.error == Closed || r.error == BadInput || (r.error == Inference && world.faults > old(world.faults))
      ensures r.Ok? ==> |ids| == |mask| == |types| == seqLen && r.value == RowVector(model, Row(ids, mask, types))
    {
      hide RowVector, Pool, OutputAt;
      if closed {
        return Err(Closed);
      }
      if |ids| != seqLen || |mask| != seqLen || |types| != seqLen {
        return Err(BadInput);
      }
      Copy(inputIDs, ids);
      Copy(attMask, mask);
      Copy(tokenTypes, types);
      var ok := Infer();
      if !ok {
        return Err(Inference);
      }
      WantFits(1 * seqLen, batchSize * seqLen, model.hiddenDim);
      var results := MeanPoolAndNormalize(output, attMask, 1, seqLen, model.hiddenDim, model.root);
      PooledRow(this, ids, mask, types, 0);
      assert RowAt(ids, mask, types, 0, seqLen) == Row(ids, mask, types);
      r := Ok(results[0]);
    }
  }

  lemma ProductNat(a: nat, b: nat)
    ensures 0 <= a * b
  {
  }

  lemma WantFits(n: nat, m: nat, len: nat)
    requires n <= m
    ensures 0 <= n * len <= m * len
  {
    if n < m { ProductGrows(m, n, len); }
  }

  method Copy(tensor: array<int>, data: seq<int>)
    requires |data| <= tensor.Length
    modifies tensor
    ensures tensor[..|data|] == data && tensor[|data|..] == old(tensor[|data|..])
  {
    forall i | 0 <= i < |data| {
      tensor[i] := data[i];
    }
  }

  // Zero first, then copy: the rows behind the data are padding.
  method Fill(tensor: array<int>, data: seq<int>)
    requires |data| <= tensor.Length
    modifies tensor
    ensures tensor[..] == PadTo(data, tensor.Length)
  {
    forall i | 0 <= i < tensor.Length {
      tensor[i] := 0;
    }
    Copy(tensor, data);
    assert tensor[..] == tensor[..|data|] + tensor[|data|..];
  }

  // Pooling the output over a row gives the row's vector.
  lemma PooledRow(sess: OnnxSession, ids: seq<int>, mask: seq<int>, types: seq<int>, b: nat)
    requires sess.Valid() && b < sess.batchSize
    requires b * sess.seqLen + sess.seqLen <= |ids| == |mask| == |types| <= sess.batchSize * sess.seqLen
    requires ids <= sess.inputIDs[..] && mask <= sess.attMask[..] && types <= sess.tokenTypes[..]
    requires forall k :: 0 <= k < sess.output.Length ==>
      sess.output[k] == OutputAt(sess.model.network, sess.inputIDs[..], sess.attMask[..], sess.tokenTypes[..],
                                 sess.seqLen, sess.model.hiddenDim, k)
    ensures Pool(FlatHidden(sess.output[..], b, sess.seqLen, sess.model.hiddenDim), Slice(sess.attMask[..], b, sess.seqLen),
                 sess.model.hiddenDim, sess.model.root)
         == RowVector(sess.model, RowAt(ids, mask, types, b, sess.seqLen))
  {
    hide Pool, OutputAt, FlatHidden;
    var len, dim := sess.seqLen, sess.model.hiddenDim;
    var i, m, t := sess.inputIDs[..], sess.attMask[..], sess.tokenTypes[..];
    SlicePrefix(ids, i, b, len);
    SlicePrefix(mask, m, b, len);
    SlicePrefix(types, t, b, len);
    var row := RowAt(ids, mask, types, b, len);
    var h := FlatHidden(sess.output[..], b, len, dim);
    var g := HiddenOf(sess.model.network, row);
    forall s: nat, d: nat | s < |row.mask| && row.mask[s] != 0 && d < dim ensures h(s, d) == g(s, d) {
      HiddenFits(b, sess.batchSize, s, len, d, dim);
      FlatHiddenAt(sess.output[..], b, len, dim, s, d);
      OutputAtRow(sess.model.network, i, m, t, sess.batchSize, len, dim, b, s, d);
    }
    PoolAgrees(h, g, row.mask, dim, sess.model.root);
  }

  lemma SlicePrefix(data: seq<int>, tensor: seq<int>, b: nat, len: nat)
    requires data <= tensor && b * len + len <= |data|
    ensures Slice(tensor, b, len) == Slice(data, b, len)
  {
    assert b * len >= 0;
  }
}
