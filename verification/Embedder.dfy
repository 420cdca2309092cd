// Embedding many texts: embedding/embedder.go:667-843 and embedding/pipeline.go:81-123.
module Embedder {
  import opened Prelude
  import opened EmbedSpec
  import opened OnnxSession
  import opened Tokenization
  import P = Pipeline

  // ---------------------------------------------------------------------
  // The vectors of a stretch of texts
  // ---------------------------------------------------------------------

  // Every text embedded alone.
  function Vectors(m: Model, texts: seq<string>): seq<seq<real>>
    requires Encodes(m, texts)
  {
    seq(|texts|, i requires 0 <= i < |texts| => EmbedAlone(m, texts[i]).value)
  }

  // Vector i is the embedding of text i that its tokens, the network and the mask determine.
  ghost predicate AllEmbedded(m: Model, texts: seq<string>, vectors: seq<seq<real>>) {
    |vectors| == |texts| && forall i :: 0 <= i < |texts| ==> IsEmbedding(m, texts[i], vectors[i])
  }

  lemma VectorsMean(m: Model, texts: seq<string>)
    requires Encodes(m, texts)
    ensures AllEmbedded(m, texts, Vectors(m, texts))
  {
    hide Encode, IsEmbedding;
    forall i | 0 <= i < |texts| ensures IsEmbedding(m, texts[i], Vectors(m, texts)[i]) {
      assert Encode(m, texts[i]).Some?;
      EmbeddingMeans(m, texts[i]);
    }
  }

  // Row i of the flat inputs is the encoding of the text.
  predicate RowIs(m: Model, ids: seq<int>, mask: seq<int>, types: seq<int>, i: nat, text: string) {
    && i * m.maxSeqLen + m.maxSeqLen <= |ids| == |mask| == |types|
    && Encode(m, text).Some?
    && Encode(m, text).value.0 == RowAt(ids, mask, types, i, m.maxSeqLen)
  }

  predicate RowsAre(m: Model, ids: seq<int>, mask: seq<int>, types: seq<int>, texts: seq<string>) {
    forall i :: 0 <= i < |texts| ==> RowIs(m, ids, mask, types, i, texts[i])
  }

  lemma BatchRows(m: Model, texts: seq<string>)
    requires EncodeAll(m, texts).Some?
    ensures var b := EncodeAll(m, texts).value; RowsAre(m, b.ids, b.mask, b.types, texts)
  {
    hide Encode, RowAt, EncodeAll;
    var b := EncodeAll(m, texts).value;
    forall i | 0 <= i < |texts| ensures RowIs(m, b.ids, b.mask, b.types, i, texts[i]) {
      BatchRow(m, texts, i);
    }
  }

  // A stretch of rows is the encoding of the stretch of texts.
  lemma ChunkRows(m: Model, ids: seq<int>, mask: seq<int>, types: seq<int>, texts: seq<string>, start: nat, end: nat)
    requires RowsAre(m, ids, mask, types, texts) && start <= end <= |texts|
    requires |ids| == |mask| == |types| == |texts| * m.maxSeqLen
    ensures 0 <= start * m.maxSeqLen <= end * m.maxSeqLen <= |texts| * m.maxSeqLen
    ensures end * m.maxSeqLen - start * m.maxSeqLen == (end - start) * m.maxSeqLen
    ensures var lo, hi := start * m.maxSeqLen, end * m.maxSeqLen;
            RowsAre(m, ids[lo..hi], mask[lo..hi], types[lo..hi], texts[start..end])
  {
    hide Encode;
    var len := m.maxSeqLen;
    WantFits(start, end, len);
    WantFits(end, |texts|, len);
    Difference(start, end, len);
    var lo, hi := start * len, end * len;
    forall i | 0 <= i < end - start ensures RowIs(m, ids[lo..hi], mask[lo..hi], types[lo..hi], i, texts[start..end][i]) {
      assert RowIs(m, ids, mask, types, start + i, texts[start + i]);
      SliceShift(ids, start, end, i, len);
      SliceShift(mask, start, end, i, len);
      SliceShift(types, start, end, i, len);
      assert texts[start..end][i] == texts[start + i];
    }
  }

  lemma Difference(start: nat, end: nat, len: nat)
    requires start <= end
    ensures end * len - start * len == (end - start) * len
  {
  }

  lemma SliceShift(flat: seq<int>, start: nat, end: nat, i: nat, len: nat)
    requires start + i < end && end * len <= |flat| && 0 <= start * len <= end * len
    ensures i * len + len <= end * len - start * len && (start + i) * len + len <= |flat|
    ensures Slice(flat[start * len..end * len], i, len) == Slice(flat, start + i, len)
  {
    RowFits(i, end - start, len);
    Difference(start, end, len);
    Sum(start, i, len);
    var lo, hi, at := start * len, end * len, i * len;
    SliceOfSlice(flat, lo, hi, at, len);
  }

  lemma SliceOfSlice(flat: seq<int>, lo: nat, hi: nat, at: nat, len: nat)
    requires lo <= hi <= |flat| && at + len <= hi - lo
    ensures flat[lo..hi][at..at + len] == flat[lo + at..lo + at + len]
  {
    var a, b := flat[lo..hi][at..at + len], flat[lo + at..lo + at + len];
    assert |a| == |b|;
    forall k | 0 <= k < len ensures a[k] == b[k] {
      assert a[k] == flat[lo..hi][at + k];
    }
  }

  lemma Sum(start: nat, i: nat, len: nat)
    ensures (start + i) * len == start * len + i * len && i * len >= 0
  {
  }

  // What a batch run returns for rows that encode texts.
  lemma BatchVectors(m: Model, ids: seq<int>, mask: seq<int>, types: seq<int>, texts: seq<string>, vecs: seq<seq<real>>)
    requires RowsAre(m, ids, mask, types, texts) && |vecs| == |texts|
    requires forall b :: 0 <= b < |vecs| ==>
      b * m.maxSeqLen + m.maxSeqLen <= |ids| == |mask| == |types|
      && vecs[b] == RowVector(m, RowAt(ids, mask, types, b, m.maxSeqLen))
    ensures Encodes(m, texts) && vecs == Vectors(m, texts)
  {
    hide RowVector, RowAt, Encode;
    forall i | 0 <= i < |texts| ensures Encode(m, texts[i]).Some? && EmbedAlone(m, texts[i]) == Some(vecs[i]) {
      assert RowIs(m, ids, mask, types, i, texts[i]);
    }
  }

  lemma VectorsConcat(m: Model, texts: seq<string>, start: nat, end: nat)
    requires start <= end <= |texts| && Encodes(m, texts[..start]) && Encodes(m, texts[start..end])
    ensures Encodes(m, texts[..end])
    ensures Vectors(m, texts[..start]) + Vectors(m, texts[start..end]) == Vectors(m, texts[..end])
  {
    hide EmbedAlone, Encode;
    assert texts[..end] == texts[..start] + texts[start..end];
    forall i | 0 <= i < end ensures Encode(m, texts[..end][i]).Some? {
      if i < start { assert texts[..end][i] == texts[..start][i]; } else { assert texts[..end][i] == texts[start..end][i - start]; }
    }
  }

  // ---------------------------------------------------------------------
  // Buckets
  // ---------------------------------------------------------------------

  const BUCKETS: seq<nat> := [64, 128, 256, 512]

  function BucketIn(buckets: seq<nat>, maxSeqLen: nat, len: nat): nat {
    if buckets == [] || buckets[0] >= maxSeqLen then maxSeqLen
    else if len <= buckets[0] then buckets[0]
    else BucketIn(buckets[1..], maxSeqLen, len)
  }

  predicate Ascending(buckets: seq<nat>) { forall i, j :: 0 <= i < j < |buckets| ==> buckets[i] < buckets[j] }

  // The smallest supported length, or the limit, that holds the text.
  lemma {:induction false} SmallestBucket(buckets: seq<nat>, maxSeqLen: nat, len: nat)
    requires Ascending(buckets) && len <= maxSeqLen
    ensures var b := BucketIn(buckets, maxSeqLen, len);
            && len <= b <= maxSeqLen && (b == maxSeqLen || b in buckets)
            && forall i :: 0 <= i < |buckets| && len <= buckets[i] ==> b <= buckets[i]
  {
    if buckets != [] {
      assert forall i :: 0 < i < |buckets| ==> buckets[0] < buckets[i];
      if buckets[0] < maxSeqLen && len > buckets[0] {
        SmallestBucket(buckets[1..], maxSeqLen, len);
        assert forall i :: 0 < i < |buckets| ==> buckets[i] == buckets[1..][i - 1];
      }
    }
  }

  // The indices, ascending, of the texts that fall into a bucket.
  function Members(buckets: seq<nat>, bucket: nat): seq<nat> {
    if buckets == [] then []
    else
      var n := |buckets| - 1;
      Members(buckets[..n], bucket) + if buckets[n] == bucket then [n] else []
  }

  lemma {:induction false} MembersAre(buckets: seq<nat>, bucket: nat)
    ensures forall k :: 0 <= k < |Members(buckets, bucket)| ==>
              Members(buckets, bucket)[k] < |buckets| && buckets[Members(buckets, bucket)[k]] == bucket
    ensures forall j, k :: 0 <= j < k < |Members(buckets, bucket)| ==> Members(buckets, bucket)[j] < Members(buckets, bucket)[k]
    ensures forall i :: 0 <= i < |buckets| && buckets[i] == bucket ==> i in Members(buckets, bucket)
  {
    if buckets != [] {
      var n := |buckets| - 1;
      MembersAre(buckets[..n], bucket);
      var init, all := Members(buckets[..n], bucket), Members(buckets, bucket);
      forall k | 0 <= k < |all| ensures all[k] < |buckets| && buckets[all[k]] == bucket && (k == |init| ==> all[k] == n) {
        if k < |init| {
          assert all[k] == init[k] && buckets[..n][init[k]] == bucket;
        }
      }
      forall i | 0 <= i < |buckets| && buckets[i] == bucket ensures i in Members(buckets, bucket) {
        if i < n { assert buckets[..n][i] == bucket; }
      }
    }
  }

  method SequenceBucket(maxSeqLen: nat, actualLen: nat) returns (bucket: nat)
    ensures bucket == BucketIn(BUCKETS, maxSeqLen, actualLen)
  {
    for k := 0 to |BUCKETS|
      invariant BucketIn(BUCKETS, maxSeqLen, actualLen) == BucketIn(BUCKETS[k..], maxSeqLen, actualLen)
    {
      assert BUCKETS[k..][0] == BUCKETS[k] && BUCKETS[k..][1..] == BUCKETS[k + 1..];
      if BUCKETS[k] >= maxSeqLen {
        return maxSeqLen;
      }
      if actualLen <= BUCKETS[k] {
        return BUCKETS[k];
      }
    }
    return maxSeqLen;
  }

  function BucketsOf(lengths: seq<nat>, maxSeqLen: nat): (r: seq<nat>)
    ensures |r| == |lengths|
  {
    seq(|lengths|, i requires 0 <= i < |lengths| => BucketIn(BUCKETS, maxSeqLen, lengths[i]))
  }

  // Every bucket in use, once, with its members in text order.
  method GroupRows(lengths: seq<nat>, maxSeqLen: nat) returns (groups: map<nat, seq<nat>>, order: seq<nat>)
    ensures Distinct(order) && forall b :: b in order <==> b in groups
    ensures forall b :: b in groups ==> groups[b] == Members(BucketsOf(lengths, maxSeqLen), b)
    ensures forall i :: 0 <= i < |lengths| ==> BucketsOf(lengths, maxSeqLen)[i] in groups
  {
    hide BucketIn, BucketsOf, Members;
    groups, order := map[], [];
    ghost var buckets := BucketsOf(lengths, maxSeqLen);
    NothingGrouped();
    for i := 0 to |lengths|
      invariant Distinct(order) && forall b :: b in order <==> b in groups
      invariant Grouped(groups, buckets[..i])
    {
      var bucket := SequenceBucket(maxSeqLen, lengths[i]);
      BucketAt(lengths, maxSeqLen, i);
      var group := if bucket in groups then groups[bucket] else [];
      GroupStep(groups, buckets, i, group);
      if bucket !in groups {
        order := order + [bucket];
      }
      groups := groups[bucket := group + [i]];
    }
    assert buckets[..|lengths|] == buckets;
  }

  // The members of every bucket in use.
  ghost predicate Grouped(groups: map<nat, seq<nat>>, buckets: seq<nat>) {
    && (forall b :: b in groups ==> groups[b] == Members(buckets, b))
    && (forall b :: b !in groups ==> Members(buckets, b) == [])
    && (forall j :: 0 <= j < |buckets| ==> buckets[j] in groups)
  }

  lemma NothingGrouped()
    ensures Grouped(map[], [])
  {
  }

  lemma BucketAt(lengths: seq<nat>, maxSeqLen: nat, i: nat)
    requires i < |lengths|
    ensures BucketsOf(lengths, maxSeqLen)[i] == BucketIn(BUCKETS, maxSeqLen, lengths[i])
  {
    hide BucketIn;
  }

  lemma MembersStep(buckets: seq<nat>, i: nat, b: nat)
    requires i < |buckets|
    ensures Members(buckets[..i + 1], b) == Members(buckets[..i], b) + if buckets[i] == b then [i] else []
  {
    assert buckets[..i + 1][..i] == buckets[..i];
  }

  lemma GroupStep(groups: map<nat, seq<nat>>, buckets: seq<nat>, i: nat, group: seq<nat>)
    requires i < |buckets| && Grouped(groups, buckets[..i])
    requires group == if buckets[i] in groups then groups[buckets[i]] else []
    ensures Grouped(groups[buckets[i] := group + [i]], buckets[..i + 1])
  {
    hide Members;
    var now, upTo := groups[buckets[i] := group + [i]], buckets[..i + 1];
    forall b | b in now ensures now[b] == Members(upTo, b) {
      MembersStep(buckets, i, b);
    }
    forall b: nat | b !in now ensures Members(upTo, b) == [] {
      MembersStep(buckets, i, b);
    }
    forall j | 0 <= j < i + 1 ensures upTo[j] in now {
      if j < i { assert buckets[..i][j] in groups; }
    }
  }

  // The cut of every chosen row so far, one behind the other.
  predicate Gathered(written: seq<int>, flat: seq<int>, items: seq<nat>, upTo: nat, maxSeqLen: nat, bucket: nat)
    requires upTo <= |items| && bucket <= maxSeqLen
  {
    && |written| == upTo * bucket
    && forall r :: 0 <= r < upTo ==>
         && r * bucket + bucket <= |written| && items[r] * maxSeqLen + maxSeqLen <= |flat|
         && Slice(written, r, bucket) == Slice(flat, items[r], maxSeqLen)[..bucket]
  }

  lemma GatherStep(written: seq<int>, flat: seq<int>, items: seq<nat>, row: nat, maxSeqLen: nat, bucket: nat)
    requires row < |items| && bucket <= maxSeqLen && items[row] * maxSeqLen + maxSeqLen <= |flat|
    requires Gathered(written, flat, items, row, maxSeqLen, bucket)
    ensures Gathered(written + Slice(flat, items[row], maxSeqLen)[..bucket], flat, items, row + 1, maxSeqLen, bucket)
  {
    hide Slice;
    var data := Slice(flat, items[row], maxSeqLen)[..bucket];
    SliceLast(written, data, row, bucket);
    assert (row + 1) * bucket == row * bucket + bucket;
    forall r | 0 <= r < row ensures r * bucket + bucket <= |written| && Slice(written + data, r, bucket) == Slice(written, r, bucket) {
      SlicePrefix(written, written + data, r, bucket);
    }
  }

  // Copying the first `bucket` cells of the chosen rows.
  method Gather(flat: seq<int>, items: seq<nat>, ghost rows: nat, maxSeqLen: nat, bucket: nat) returns (out: seq<int>)
    requires |flat| == rows * maxSeqLen && bucket <= maxSeqLen
    requires forall r :: 0 <= r < |items| ==> items[r] < rows
    ensures Gathered(out, flat, items, |items|, maxSeqLen, bucket)
  {
    hide PadTo, Slice, Gathered;
    ProductNat(|items|, bucket);
    var total := |items| * bucket;
    var tensor := new int[total](i => 0);
    ghost var written: seq<int> := [];
    assert tensor[..] == Zeros(total);
    NothingGathered(flat, items, maxSeqLen, bucket, total);
    for row := 0 to |items|
      invariant Gathered(written, flat, items, row, maxSeqLen, bucket)
      invariant |written| == row * bucket <= total && tensor[..] == PadTo(written, total)
    {
      RowFits(items[row], rows, maxSeqLen);
      RowFits(row, |items|, bucket);
      RowPrefix(flat, items[row], maxSeqLen, bucket);
      GatherStep(written, flat, items, row, maxSeqLen, bucket);
      var src, dst := items[row] * maxSeqLen, row * bucket;
      var data := flat[src..src + bucket];
      AppendRow(tensor, dst, data, written);
      written := written + data;
      assert (row + 1) * bucket == dst + bucket;
    }
    FullPad(written, total);
    out := tensor[..];
  }

  lemma NothingGathered(flat: seq<int>, items: seq<nat>, maxSeqLen: nat, bucket: nat, total: nat)
    requires bucket <= maxSeqLen
    ensures Gathered([], flat, items, 0, maxSeqLen, bucket) && PadTo([], total) == Zeros(total)
  {
  }

  lemma RowPrefix(flat: seq<int>, i: nat, len: nat, cut: nat)
    requires i * len + len <= |flat| && cut <= len
    ensures 0 <= i * len && flat[i * len..i * len + cut] == Slice(flat, i, len)[..cut]
  {
    assert i * len >= 0;
  }

  // ---------------------------------------------------------------------
  // The embedder
  // ---------------------------------------------------------------------

  const DEFAULT_BATCH_SIZE: nat := 32

  class Embedder {
    const model: Model
    const batchSize: nat
    const lengthBuckets: bool
    const batchPipeline: bool
    const world: World
    var closed: bool
    var sess: OnnxSession?
    var batchSess: OnnxSession?
    var bucketSessions: map<nat, OnnxSession>
    ghost var ints: set<array<int>>
    ghost var reals: set<array<real>>

    constructor (model: Model, batchSize: nat, lengthBuckets: bool, batchPipeline: bool, world: World)
      requires batchSize >= 1
      ensures Valid() && !closed && this.model == model && this.batchSize == batchSize && this.world == world
      ensures this.lengthBuckets == lengthBuckets && this.batchPipeline == batchPipeline
      ensures sess == null && batchSess == null && bucketSessions == map[]
    {
      this.model, this.batchSize, this.world := model, batchSize, world;
      this.lengthBuckets, this.batchPipeline := lengthBuckets, batchPipeline;
      closed, sess, batchSess, bucketSessions := false, null, null, map[];
      ints, reals := {}, {};
    }

    // An open session of this embedder with the given capacity and length.
    ghost predicate Mine(s: OnnxSession, rows: nat, len: nat)
      reads this, s
    {
      && s.Valid() && !s.closed && s.model == model && s.world == world && s.batchSize == rows && s.seqLen == len
      && {s.inputIDs, s.attMask, s.tokenTypes} <= ints && s.output in reals
    }

    ghost predicate Valid()
      reads this, sess, batchSess, bucketSessions.Values
    {
      && batchSize >= 1
      && (sess != null ==> Mine(sess, 1, model.maxSeqLen))
      && (batchSess != null ==> Mine(batchSess, batchSize, model.maxSeqLen))
      && forall len :: len in bucketSessions ==> Mine(bucketSessions[len], batchSize, len)
    }

    // An error is the closed embedder, a text that does not encode, or trouble outside.
    twostate predicate Explained(texts: seq<string>, error: Error)
      reads this, world
    {
      match error
      case Closed => old(closed)
      case Tokenize => !Encodes(model, texts)
      case BadInput => false
      case _ => world.faults > old(world.faults)
    }

    // A session of the given capacity, on whichever provider will build it.
    method NewSession(rows: nat, len: nat) returns (s: OnnxSession?)
      requires Valid()
      modifies world, `ints, `reals
      ensures Valid() && world.faults >= old(world.faults)
      ensures fresh(ints - old(ints)) && fresh(reals - old(reals)) && old(ints) <= ints && old(reals) <= reals
      ensures s == null ==> world.faults > old(world.faults)
      ensures s != null ==> fresh(s) && Mine(s, rows, len)
    {
      var fails := world.Trouble();
      if fails {
        return null;
      }
      var session := new OnnxSession(model, rows, len, world);
      ints := ints + {session.inputIDs, session.attMask, session.tokenTypes};
      reals := reals + {session.output};
      s := session;
    }

    method EnsureBatchSession() returns (ok: bool)
      requires Valid()
      modifies this, world
      ensures Valid() && world.faults >= old(world.faults) && closed == old(closed) && sess == old(sess)
      ensures fresh(ints - old(ints)) && fresh(reals - old(reals))
      ensures if ok then batchSess != null else batchSess == old(batchSess) && world.faults > old(world.faults)
      ensures old(batchSess) != null ==> ok && batchSess == old(batchSess) && world.faults == old(world.faults)
      ensures bucketSessions == old(bucketSessions)
    {
      if batchSess != null {
        return true;
      }
      var s := NewSession(batchSize, model.maxSeqLen);
      if s == null {
        return false;
      }
      batchSess := s;
      return true;
    }

    method EnsureBucketSession(len: nat) returns (s: OnnxSession?)
      requires Valid()
      modifies this, world
      ensures Valid() && world.faults >= old(world.faults) && closed == old(closed)
      ensures fresh(ints - old(ints)) && fresh(reals - old(reals))
      ensures if s != null then Mine(s, batchSize, len) else world.faults > old(world.faults)
      ensures len in old(bucketSessions) ==> s == old(bucketSessions)[len] && world.faults == old(world.faults)
      ensures bucketSessions == if s != null then old(bucketSessions)[len := s] else old(bucketSessions)
      ensures sess == old(sess) && batchSess == old(batchSess)
    {
      if len in bucketSessions {
        return bucketSessions[len];
      }
      s := NewSession(batchSize, len);
      if s != null {
        bucketSessions := bucketSessions[len := s];
      }
    }

    // One run of the batch session over rows that encode the given texts.
    method RunTexts(ids: seq<int>, mask: seq<int>, types: seq<int>, n: nat, ghost texts: seq<string>)
        returns (r: Result<seq<seq<real>>>)
      requires Valid() && batchSess != null && 1 <= n == |texts| <= batchSize
      requires |ids| == |mask| == |types| == n * model.maxSeqLen && RowsAre(model, ids, mask, types, texts)
      modifies ints, reals, world
      ensures Valid() && world.faults >= old(world.faults)
      ensures r.Err? ==> r.error == Inference && world.faults > old(world.faults)
      ensures r.Ok? ==> Encodes(model, texts) && r.value == Vectors(model, texts)
    {
      hide RowsAre, RowVector, RowAt, Vectors, Encodes;
      r := batchSess.RunBatch(n, ids, mask, types);
      if r.Ok? {
        BatchVectors(model, ids, mask, types, texts, r.value);
      }
    }

    // The eager session of fixed mode.
    method OpenSession() returns (ok: bool)
      requires Valid() && sess == null
      modifies this, world
      ensures Valid() && world.faults >= old(world.faults) && closed == old(closed)
      ensures fresh(ints - old(ints)) && fresh(reals - old(reals))
      ensures if ok then sess != null else world.faults > old(world.faults)
      ensures batchSess == old(batchSess) && bucketSessions == old(bucketSessions)
    {
      sess := NewSession(1, model.maxSeqLen);
      ok := sess != null;
    }

    method Close()
      requires Valid()
      modifies this
      ensures Valid() && closed && sess == null && batchSess == null && bucketSessions == map[]
    {
      closed := true;
      sess, batchSess, bucketSessions := null, null, map[];
    }

    // Chunks of at most batchSize rows, one after the other.
    method EmbedChunks(texts: seq<string>, batch: Batch) returns (r: Result<seq<seq<real>>>)
      requires Valid() && batchSess != null && EncodeAll(model, texts) == Some(batch)
      modifies ints, reals, world
      ensures Valid() && world.faults >= old(world.faults)
      ensures r.Err? ==> (r.error == Cancelled || r.error == Inference) && world.faults > old(world.faults)
      ensures r.Ok? ==> Encodes(model, texts) && r.value == Vectors(model, texts)
    {
      hide RowsAre, Vectors, EncodeAll, Encodes;
      BatchSize(model, texts);
      BatchRows(model, texts);
      var results: seq<seq<real>> := [];
      NoVectors(model, texts);
      var start := 0;
      while start < |texts|
        invariant 0 <= start <= |texts| && Valid() && world.faults >= old(world.faults)
        invariant Encodes(model, texts[..start]) && results == Vectors(model, texts[..start])
      {
        var cancelled := world.Trouble();
        if cancelled {
          return Err(Cancelled);
        }
        var end := start + batchSize;
        if end > |texts| {
          end := |texts|;
        }
        ChunkRows(model, batch.ids, batch.mask, batch.types, texts, start, end);
        var lo, hi := start * model.maxSeqLen, end * model.maxSeqLen;
        var vecs := RunTexts(batch.ids[lo..hi], batch.mask[lo..hi], batch.types[lo..hi], end - start, texts[start..end]);
        if vecs.Err? {
          return Err(vecs.error);
        }
        VectorsConcat(model, texts, start, end);
        results := results + vecs.value;
        start := end;
      }
      assert texts[..start] == texts;
      r := Ok(results);
    }

    // Chunk k of the texts, as the producer tokenizes it.
    function ChunkAnswer(texts: seq<string>, k: nat): P.Answer<Batch, Error> {
      var lo := k * batchSize;
      if 0 <= lo <= |texts| then
        var hi := if lo + batchSize < |texts| then lo + batchSize else |texts|;
        match EncodeAll(model, texts[lo..hi])
        case None => P.Failure(Tokenize)
        case Some(b) => P.Value(b)
      else P.Failure(Tokenize)
    }

    function Producer(texts: seq<string>): nat -> P.Answer<Batch, Error> { (k: nat) => ChunkAnswer(texts, k) }

    // One run over a chunk the producer has encoded.
    method RunItem(item: Batch, n: nat, ghost texts: seq<string>) returns (r: Result<seq<seq<real>>>)
      requires Valid() && batchSess != null && 1 <= n == |texts| <= batchSize && EncodeAll(model, texts) == Some(item)
      modifies ints, reals, world
      ensures Valid() && world.faults >= old(world.faults)
      ensures r.Err? ==> r.error == Inference && world.faults > old(world.faults)
      ensures r.Ok? ==> Encodes(model, texts) && r.value == Vectors(model, texts)
    {
      hide RowsAre, Vectors, EncodeAll, Encodes;
      BatchSize(model, texts);
      BatchRows(model, texts);
      r := RunTexts(item.ids, item.mask, item.types, n, texts);
    }

    // Joining the producer after the channel was closed.
    method Finish(pipeline: P.OneAheadPipeline<Batch, Error>, ghost texts: seq<string>) returns (err: Option<Error>)
      requires batchSize >= 1 && pipeline.Valid() && pipeline.s.consumer.Consuming? && pipeline.s.closed
      requires pipeline.produce == Producer(texts) && pipeline.cancellation == Cancelled
      requires pipeline.s.count == (|texts| + batchSize - 1) / batchSize
      modifies pipeline, world
      ensures world.faults >= old(world.faults) && pipeline.s.received == old(pipeline.s.received)
      ensures err == None ==> |pipeline.s.received| == pipeline.s.count == old(pipeline.s.count)
      ensures err == Some(Tokenize) ==> !Encodes(model, texts)
      ensures err.Some? && err.value != Tokenize ==> err.value == Cancelled && world.faults > old(world.faults)
    {
      hide Encodes, ChunkAnswer, P.Inv, P.Measure;
      if pipeline.s.cancelled {
        // Nobody but the caller can have cancelled the context before stop.
        world.Note();
      }
      FailureMeans(this, pipeline, texts);
      var stopped := pipeline.Stop();
      err := match stopped
        case None => None
        case Some(ProduceError(e)) => Some(e)
        case Some(ContextError) => Some(Cancelled);
    }

    // The same chunks, tokenized one ahead by the pipeline's producer.
    method EmbedFixedPipeline(texts: seq<string>) returns (r: Result<seq<seq<real>>>)
      requires Valid() && batchSess != null
      modifies ints, reals, world
      ensures Valid() && world.faults >= old(world.faults)
      ensures r.Err? && r.error == Tokenize ==> !Encodes(model, texts)
      ensures r.Err? && r.error != Tokenize ==> (r.error == Cancelled || r.error == Inference) && world.faults > old(world.faults)
      ensures r.Ok? ==> Encodes(model, texts) && r.value == Vectors(model, texts)
    {
      hide Valid, Mine, Vectors, EncodeAll, Encodes, ChunkAnswer, ChunkStart, Producer, P.Inv, P.Measure, P.Outcome, P.Start;
      AtLeastOneRow(this);
      var chunkCount := (|texts| + batchSize - 1) / batchSize;
      var pipeline := new P.OneAheadPipeline<Batch, Error>(chunkCount, Producer(texts), Cancelled);
      var results: seq<seq<real>> := [];
      NoVectors(model, texts);
      FirstChunk(batchSize, |texts|);
      NothingReceived<Batch, Error>(chunkCount);
      var start := 0;
      while true
        invariant Valid() && world.faults >= old(world.faults)
        invariant pipeline.Valid() && fresh(pipeline) && pipeline.s.consumer.Consuming? && pipeline.s.count == chunkCount
        invariant pipeline.produce == Producer(texts) && pipeline.cancellation == Cancelled
        invariant start <= |texts| && start == ChunkStart(|pipeline.s.received|, batchSize, |texts|)
        invariant Encodes(model, texts[..start]) && results == Vectors(model, texts[..start])
        decreases chunkCount - |pipeline.s.received|
      {
        ghost var k := |pipeline.s.received|;
        var item := pipeline.Receive();
        if item.None? {
          break;
        }
        ReceivedAtMost(pipeline);
        var cancelled := world.Trouble();
        if cancelled {
          var _ := pipeline.Stop();
          return Err(Cancelled);
        }
        ChunkOf(k, batchSize, |texts|);
        AnswerEncodes(this, texts, k, item.value);
        var end := if start + batchSize < |texts| then start + batchSize else |texts|;
        var vecs := RunItem(item.value, end - start, texts[start..end]);
        if vecs.Err? {
          var _ := pipeline.Stop();
          return Err(vecs.error);
        }
        VectorsConcat(model, texts, start, end);
        results := results + vecs.value;
        start := end;
      }
      var err := Finish(pipeline, texts);
      if err.Some? {
        return Err(err.value);
      }
      LastChunk(chunkCount, batchSize, |texts|);
      assert texts[..|texts|] == texts;
      r := Ok(results);
    }

    // Rows of one bucket through its session, without the padding behind the bucket.
    method RunBucket(batch: Batch, bucket: nat, items: seq<nat>, ghost texts: seq<string>)
        returns (r: Result<seq<seq<real>>>)
      requires Valid() && EncodeAll(model, texts) == Some(batch) && IgnoresPadding(model.network)
      requires 1 <= |items| <= batchSize && bucket <= model.maxSeqLen
      requires |batch.lengths| == |texts| && forall k :: 0 <= k < |items| ==> items[k] < |texts| && batch.lengths[items[k]] <= bucket
      modifies this, ints, reals, world
      ensures Valid() && world.faults >= old(world.faults) && closed == old(closed)
      ensures fresh(ints - old(ints)) && fresh(reals - old(reals))
      ensures r.Err? ==> (r.error == Session || r.error == Inference) && world.faults > old(world.faults)
      ensures r.Ok? ==> |r.value| == |items| && forall k :: 0 <= k < |items| ==> EmbedAlone(model, texts[items[k]]) == Some(r.value[k])
    {
      hide EncodeAll, EmbedAlone, IgnoresPadding, RowVector, RowAt, Gathered;
      BatchSize(model, texts);
      var ids := Gather(batch.ids, items, |texts|, model.maxSeqLen, bucket);
      var mask := Gather(batch.mask, items, |texts|, model.maxSeqLen, bucket);
      var types := Gather(batch.types, items, |texts|, model.maxSeqLen, bucket);
      GatheredSize(ids, batch.ids, items, model.maxSeqLen, bucket);
      GatheredSize(mask, batch.mask, items, model.maxSeqLen, bucket);
      GatheredSize(types, batch.types, items, model.maxSeqLen, bucket);
      var s := EnsureBucketSession(bucket);
      if s == null {
        return Err(Session);
      }
      r := s.RunBatch(|items|, ids, mask, types);
      if r.Ok? {
        forall k | 0 <= k < |items| ensures EmbedAlone(model, texts[items[k]]) == Some(r.value[k]) {
          BucketRow(model, texts, batch, items, bucket, ids, mask, types, k);
        }
      }
    }

    // Length buckets: every index of the result is written exactly once.
    method EmbedLengthBuckets(batch: Batch, ghost texts: seq<string>)
      returns (r: Result<seq<seq<real>>>, ghost writes: seq<nat>)
      requires Valid() && EncodeAll(model, texts) == Some(batch) && IgnoresPadding(model.network)
      modifies this, ints, reals, world
      ensures Valid() && world.faults >= old(world.faults) && closed == old(closed)
      ensures r.Err? ==> (r.error == Session || r.error == Inference || r.error == Cancelled) && world.faults > old(world.faults)
      ensures r.Ok? ==> Encodes(model, texts) && r.value == Vectors(model, texts)
      ensures r.Ok? ==> |writes| == |texts| && forall i :: 0 <= i < |writes| ==> writes[i] == 1
    {
      hide Valid, Mine, EncodeAll, Encodes, EmbedAlone, IgnoresPadding, Members, BucketsOf, BucketIn, Scattered, DoneUpTo;
      AtLeastOneRow(this);
      BatchSize(model, texts);
      EncodesAll(model, texts);
      var lengths := batch.lengths;
      ghost var buckets := BucketsOf(lengths, model.maxSeqLen);
      var groups, order := GroupRows(lengths, model.maxSeqLen);
      var results: seq<seq<real>> := seq(|lengths|, i => []);
      writes := seq(|lengths|, i => 0);
      ghost var done: set<nat> := {};
      NothingScattered(model, texts, results, writes, buckets, order);
      for o := 0 to |order|
        invariant Valid() && world.faults >= old(world.faults) && closed == old(closed)
        invariant fresh(ints - old(ints)) && fresh(reals - old(reals))
        invariant Scattered(model, texts, results, writes, done) && DoneUpTo(buckets, order, o, 0, done)
      {
        var bucket := order[o];
        var items := groups[bucket];
        BucketItems(model, texts, batch, bucket, order, o);
        var start := 0;
        while start < |items|
          invariant 0 <= start <= |items|
          invariant Valid() && world.faults >= old(world.faults) && closed == old(closed)
          invariant fresh(ints - old(ints)) && fresh(reals - old(reals))
          invariant Scattered(model, texts, results, writes, done) && DoneUpTo(buckets, order, o, start, done)
        {
          var cancelled := world.Trouble();
          if cancelled {
            return Err(Cancelled), writes;
          }
          var end := if start + batchSize < |items| then start + batchSize else |items|;
          var chunk := items[start..end];
          var vecs := RunBucket(batch, bucket, chunk, texts);
          if vecs.Err? {
            return Err(vecs.error), writes;
          }
          NotYetDone(buckets, order, o, start, end, done);
          results, writes, done := Scatter(results, chunk, vecs.value, model, texts, writes, done);
          start := end;
        }
        NextBucket(buckets, order, o, done);
      }
      AllScattered(model, texts, results, writes, buckets, order, done);
      r := Ok(results);
    }

    // Position i of the answer is text i embedded alone, in every mode and for every batch size.
    method EmbedDocuments(texts: seq<string>) returns (r: Result<seq<seq<real>>>)
      requires Valid() && IgnoresPadding(model.network)
      modifies this, ints, reals, world
      ensures Valid() && closed == old(closed)
      ensures r.Ok? ==> Encodes(model, texts) && r.value == Vectors(model, texts)
      ensures r.Ok? ==> AllEmbedded(model, texts, r.value)
      ensures r.Err? ==> Explained(texts, r.error)
    {
      hide Vectors, AllEmbedded, Valid, Encodes, Explained, IgnoresPadding;
      r := EmbedInMode(texts);
      if r.Ok? {
        VectorsMean(model, texts);
      }
    }

    // The three modes.
    method EmbedInMode(texts: seq<string>) returns (r: Result<seq<seq<real>>>)
      requires Valid() && IgnoresPadding(model.network)
      modifies this, ints, reals, world
      ensures Valid() && closed == old(closed)
      ensures r.Ok? ==> Encodes(model, texts) && r.value == Vectors(model, texts)
      ensures r.Err? ==> Explained(texts, r.error)
    {
      hide Valid, Mine, EncodeAll, Encodes, IgnoresPadding, Vectors;
      AtLeastOneRow(this);
      EncodesAll(model, texts);
      if |texts| == 0 {
        NoVectors(model, texts);
        assert texts[..0] == texts;
        return Ok([]);
      }
      var cancelled := world.Trouble();
      if cancelled {
        return Err(Cancelled);
      }
      if closed {
        return Err(Closed);
      }
      cancelled := world.Trouble();
      if cancelled {
        return Err(Cancelled);
      }
      if batchPipeline && !lengthBuckets && |texts| > batchSize {
        var ready := EnsureBatchSession();
        if !ready {
          return Err(Session);
        }
        r := EmbedFixedPipeline(texts);
        return;
      }
      var encoded := EncodeBatchWithLengths(model, texts);
      if encoded.None? {
        return Err(Tokenize);
      }
      var batch := encoded.value;
      if lengthBuckets {
        ghost var writes;
        r, writes := EmbedLengthBuckets(batch, texts);
        return;
      }
      if |texts| == 1 && sess != null {
        r := RunAlone(batch, texts);
        return;
      }
      var ready := EnsureBatchSession();
      if !ready {
        return Err(Session);
      }
      r := EmbedChunks(texts, batch);
    }

    // A single text on the session of capacity one.
    method RunAlone(batch: Batch, ghost texts: seq<string>) returns (r: Result<seq<seq<real>>>)
      requires Valid() && sess != null && |texts| == 1 && EncodeAll(model, texts) == Some(batch)
      modifies ints, reals, world
      ensures Valid() && world.faults >= old(world.faults)
      ensures r.Err? ==> r.error == Inference && world.faults > old(world.faults)
      ensures r.Ok? ==> Encodes(model, texts) && r.value == Vectors(model, texts)
    {
      hide EncodeAll, RowVector, Encode;
      BatchRow(model, texts, 0);
      EncodesAll(model, texts);
      assert RowAt(batch.ids, batch.mask, batch.types, 0, model.maxSeqLen) == Row(batch.ids, batch.mask, batch.types);
      var vec := sess.Run(batch.ids, batch.mask, batch.types);
      if vec.Err? {
        return Err(vec.error);
      }
      assert EmbedAlone(model, texts[0]) == Some(vec.value);
      assert [vec.value] == Vectors(model, texts);
      r := Ok([vec.value]);
    }

    method EmbedQuery(text: string) returns (r: Result<seq<real>>)
      requires Valid() && IgnoresPadding(model.network)
      modifies this, ints, reals, world
      ensures Valid() && closed == old(closed)
      ensures r.Ok? ==> EmbedAlone(model, text) == Some(r.value) && IsEmbedding(model, text, r.value)
      ensures r.Err? ==> Explained([text], r.error)
    {
      hide Valid, Mine, IgnoresPadding, EmbedAlone, IsEmbedding;
      var results := EmbedDocuments([text]);
      if results.Err? {
        return Err(results.error);
      }
      QueryVector(model, text);
      r := Ok(results.value[0]);
    }
  }

  // Without length buckets the session for single texts is opened at once.
  method NewEmbedder(model: Model, batchSize: int, lengthBuckets: bool, batchPipeline: bool, world: World) returns (e: Embedder?)
    modifies world
    ensures world.faults >= old(world.faults)
    ensures e == null ==> !lengthBuckets && world.faults > old(world.faults)
    ensures e != null ==>
      && fresh(e) && e.Valid() && !e.closed && e.model == model && e.world == world
      && e.batchSize == (if batchSize <= 0 then DEFAULT_BATCH_SIZE else batchSize)
      && e.lengthBuckets == lengthBuckets && e.batchPipeline == batchPipeline
      && (e.sess != null <==> !lengthBuckets) && e.batchSess == null && e.bucketSessions == map[]
  {
    var size := if batchSize <= 0 then DEFAULT_BATCH_SIZE else batchSize;
    var embedder := new Embedder(model, size, lengthBuckets, batchPipeline, world);
    if !lengthBuckets {
      var ok := embedder.OpenSession();
      if !ok {
        return null;
      }
    }
    e := embedder;
  }

  lemma QueryVector(m: Model, text: string)
    ensures Encodes(m, [text]) ==> |Vectors(m, [text])| == 1 && EmbedAlone(m, text) == Some(Vectors(m, [text])[0])
  {
    hide Encode;
    if Encodes(m, [text]) { assert Encode(m, [text][0]).Some?; }
  }

  lemma GatheredSize(out: seq<int>, flat: seq<int>, items: seq<nat>, maxSeqLen: nat, bucket: nat)
    requires bucket <= maxSeqLen && Gathered(out, flat, items, |items|, maxSeqLen, bucket)
    ensures |out| == |items| * bucket
  {
  }

  // A gathered row is the text's row without zeros at its end, so it has the text's vector.
  lemma BucketRow(m: Model, texts: seq<string>, batch: Batch, items: seq<nat>, bucket: nat,
                  ids: seq<int>, mask: seq<int>, types: seq<int>, k: nat)
    requires EncodeAll(m, texts) == Some(batch) && IgnoresPadding(m.network) && bucket <= m.maxSeqLen && k < |items|
    requires |batch.lengths| == |texts| && items[k] < |texts| && batch.lengths[items[k]] <= bucket
    requires Gathered(ids, batch.ids, items, |items|, m.maxSeqLen, bucket)
    requires Gathered(mask, batch.mask, items, |items|, m.maxSeqLen, bucket)
    requires Gathered(types, batch.types, items, |items|, m.maxSeqLen, bucket)
    ensures k * bucket + bucket <= |ids| == |mask| == |types|
    ensures EmbedAlone(m, texts[items[k]]) == Some(RowVector(m, RowAt(ids, mask, types, k, bucket)))
  {
    hide EncodeAll, RowVector, IgnoresPadding, Slice, Encode;
    BatchRow(m, texts, items[k]);
    var e := Encode(m, texts[items[k]]).value;
    BucketText(m, texts[items[k]], bucket);
    EncodedShape(m, texts[items[k]]);
    assert RowAt(ids, mask, types, k, bucket) == Cut(e.0, bucket);
  }

  lemma BucketText(m: Model, text: string, bucket: nat)
    requires Encode(m, text).Some? && Encode(m, text).value.1 <= bucket <= m.maxSeqLen && IgnoresPadding(m.network)
    ensures Shaped(Encode(m, text).value.0, m.maxSeqLen)
    ensures RowVector(m, Cut(Encode(m, text).value.0, bucket)) == RowVector(m, Encode(m, text).value.0)
  {
    hide RowVector, Padded, IgnoresPadding, KeptLen;
    BucketVector(m, m.tokenize(text).value, bucket);
  }

  // ---------------------------------------------------------------------
  // Scattering
  // ---------------------------------------------------------------------

  // The indices done hold their text's vector and were written once; the others were not written.
  ghost predicate Scattered(m: Model, texts: seq<string>, results: seq<seq<real>>, writes: seq<nat>, done: set<nat>) {
    && |results| == |writes| == |texts|
    && forall i :: 0 <= i < |texts| ==>
         if i in done then writes[i] == 1 && EmbedAlone(m, texts[i]) == Some(results[i]) else writes[i] == 0
  }

  // Done: the buckets before o, and the first `start` members of bucket o.
  ghost predicate DoneUpTo(buckets: seq<nat>, order: seq<nat>, o: nat, start: nat, done: set<nat>) {
    forall i: nat ::
      i in done <==> i < |buckets| && (InFirst(order, o, buckets[i]) || (o < |order| && Before(Members(buckets, order[o]), start, i)))
  }

  ghost predicate InFirst(order: seq<nat>, o: nat, b: nat) { exists k :: 0 <= k < o && k < |order| && order[k] == b }

  ghost predicate Before(items: seq<nat>, start: nat,
      i: nat) { exists k :: 0 <= k < start && k < |items| && items[k] == i }

  lemma NothingScattered(m: Model, texts: seq<string>, results: seq<seq<real>>, writes: seq<nat>,
      buckets: seq<nat>, order: seq<nat>)
    requires |results| == |writes| == |texts| && forall i :: 0 <= i < |writes| ==> writes[i] == 0
    ensures Scattered(m, texts, results, writes, {}) && DoneUpTo(buckets, order, 0, 0, {})
  {
  }

  // The members of a bucket fit it.
  lemma BucketItems(m: Model, texts: seq<string>, batch: Batch, bucket: nat, order: seq<nat>, o: nat)
    requires EncodeAll(m, texts) == Some(batch) && |batch.lengths| == |texts|
    requires o < |order| && order[o] == bucket
    ensures var items := Members(BucketsOf(batch.lengths, m.maxSeqLen), bucket);
            && (items != [] ==> bucket <= m.maxSeqLen)
            && forall k :: 0 <= k < |items| ==> items[k] < |texts| && batch.lengths[items[k]] <= bucket
  {
    hide EncodeAll, BucketIn, Members;
    var buckets := BucketsOf(batch.lengths, m.maxSeqLen);
    var items := Members(buckets, bucket);
    MembersAre(buckets, bucket);
    forall k | 0 <= k < |items| ensures batch.lengths[items[k]] <= bucket <= m.maxSeqLen {
      BatchRow(m, texts, items[k]);
      EncodedShape(m, texts[items[k]]);
      SmallestBucket(BUCKETS, m.maxSeqLen, batch.lengths[items[k]]);
      assert buckets[items[k]] == bucket;
    }
    if items != [] { assert batch.lengths[items[0]] <= bucket <= m.maxSeqLen; }
  }

  lemma NotYetDone(buckets: seq<nat>, order: seq<nat>, o: nat, start: nat, end: nat, done: set<nat>)
    requires DoneUpTo(buckets, order, o, start, done) && Distinct(order) && o < |order|
    requires start <= end <= |Members(buckets, order[o])|
    ensures var chunk := Members(buckets, order[o])[start..end];
            && (forall k :: 0 <= k < |chunk| ==> chunk[k] !in done)
            && Distinct(chunk)
            && DoneUpTo(buckets, order, o, end, done + Elems(chunk))
  {
    hide Members;
    var items := Members(buckets, order[o]);
    MembersAre(buckets, order[o]);
    var more := done + Elems(items[start..end]);
    forall i: nat ensures i in more <==>
      i < |buckets| && (InFirst(order, o, buckets[i]) || (o < |order| && Before(items, end, i)))
    {
      if i in Elems(items[start..end]) {
        var k :| 0 <= k < end - start && items[start..end][k] == i;
        assert items[start + k] == i;
      }
      if Before(items, end, i) && !Before(items, start, i) {
        var k :| 0 <= k < end && k < |items| && items[k] == i;
        assert items[start..end][k - start] == i;
      }
    }
  }

  lemma NextBucket(buckets: seq<nat>, order: seq<nat>, o: nat, done: set<nat>)
    requires o < |order| && DoneUpTo(buckets, order, o, |Members(buckets, order[o])|, done)
    ensures DoneUpTo(buckets, order, o + 1, 0, done)
  {
    hide Members;
    var items := Members(buckets, order[o]);
    MembersAre(buckets, order[o]);
    forall i: nat | i < |buckets| ensures Before(items, |items|, i) <==> buckets[i] == order[o] {
      if buckets[i] == order[o] { var k :| 0 <= k < |items| && items[k] == i; }
    }
    forall i: nat | i < |buckets| ensures InFirst(order, o + 1, buckets[i]) <==> InFirst(order, o, buckets[i]) || buckets[i] == order[o] {
      if InFirst(order, o, buckets[i]) { var k :| 0 <= k < o && k < |order| && order[k] == buckets[i]; }
    }
    assert forall i: nat, other: seq<nat> :: !Before(other, 0, i);
  }

  method Scatter(results: seq<seq<real>>, items: seq<nat>, vecs: seq<seq<real>>, ghost m: Model,
      ghost texts: seq<string>,
                 ghost writes: seq<nat>, ghost done: set<nat>)
    returns (after: seq<seq<real>>, ghost now: seq<nat>, ghost more: set<nat>)
    requires Scattered(m, texts, results, writes, done) && |vecs| == |items| && Distinct(items)
    requires forall k :: 0 <= k < |items| ==>
      items[k] !in done && items[k] < |texts| && EmbedAlone(m, texts[items[k]]) == Some(vecs[k])
    ensures more == done + Elems(items) && Scattered(m, texts, after, now, more)
  {
    hide EmbedAlone;
    after, now, more := results, writes, done;
    for row := 0 to |items|
      invariant more == done + Elems(items[..row]) && Scattered(m, texts, after, now, more)
    {
      assert items[..row + 1] == items[..row] + [items[row]];
      assert items[row] !in Elems(items[..row]);
      after := after[items[row] := vecs[row]];
      now := now[items[row] := now[items[row]] + 1];
      more := more + {items[row]};
    }
    assert items[..|items|] == items;
  }

  lemma AllScattered(m: Model, texts: seq<string>, results: seq<seq<real>>, writes: seq<nat>, buckets: seq<nat>,
      order: seq<nat>,
                     done: set<nat>)
    requires Scattered(m, texts, results, writes, done) && DoneUpTo(buckets, order, |order|, 0, done)
    requires |buckets| == |texts| && (forall i :: 0 <= i < |texts| ==> buckets[i] in order) && Encodes(m, texts)
    ensures results == Vectors(m, texts) && |writes| == |texts| && forall i :: 0 <= i < |writes| ==> writes[i] == 1
  {
    hide EmbedAlone, Encodes;
    forall i: nat | i < |texts| ensures i in done {
      var k :| 0 <= k < |order| && order[k] == buckets[i];
      assert InFirst(order, |order|, buckets[i]);
    }
  }

  lemma AtLeastOneRow(e: Embedder)
    requires e.Valid()
    ensures e.batchSize >= 1
  {
  }

  lemma FirstChunk(batchSize: nat, n: nat)
    ensures ChunkStart(0, batchSize, n) == 0
  {
  }

  lemma NothingReceived<T, E>(count: nat)
    ensures P.Start<T, E>(count).received == [] && P.Start<T, E>(count).consumer.Consuming? && P.Start<T, E>(count).count == count
  {
  }

  lemma NoVectors(m: Model, texts: seq<string>)
    ensures Encodes(m, texts[..0]) && Vectors(m, texts[..0]) == []
  {
  }

  // Where chunk k starts.
  function ChunkStart(k: nat, batchSize: nat, n: nat): nat { if k * batchSize < n then k * batchSize else n }

  lemma ChunkOf(k: nat, batchSize: nat, n: nat)
    requires batchSize >= 1 && k < (n + batchSize - 1) / batchSize
    ensures 0 <= k * batchSize < n && ChunkStart(k, batchSize, n) == k * batchSize
    ensures ChunkStart(k + 1, batchSize, n) == if k * batchSize + batchSize < n then k * batchSize + batchSize else n
  {
    var count := (n + batchSize - 1) / batchSize;
    assert count * batchSize <= n + batchSize - 1;
    RowFits(k, count, batchSize);
    assert (k + 1) * batchSize == k * batchSize + batchSize;
  }

  lemma LastChunk(count: nat, batchSize: nat, n: nat)
    requires batchSize >= 1 && count == (n + batchSize - 1) / batchSize
    ensures ChunkStart(count, batchSize, n) == n
  {
    assert n + batchSize - 1 < count * batchSize + batchSize;
  }

  lemma ReceivedAtMost(pipeline: P.OneAheadPipeline<Batch, Error>)
    requires pipeline.Valid()
    ensures |pipeline.s.received| <= pipeline.s.count
  {
  }

  // A chunk that was answered is the encoding of its texts.
  lemma AnswerEncodes(e: Embedder, texts: seq<string>, k: nat, b: Batch)
    requires e.batchSize >= 1 && k < (|texts| + e.batchSize - 1) / e.batchSize && e.Producer(texts)(k) == P.Value(b)
    ensures var lo := ChunkStart(k, e.batchSize, |texts|);
            var hi := if lo + e.batchSize < |texts| then lo + e.batchSize else |texts|;
            lo <= |texts| && EncodeAll(e.model, texts[lo..hi]) == Some(b)
  {
    ChunkOf(k, e.batchSize, |texts|);
  }

  // A producer that failed met a text that does not encode, or a context its caller had cancelled.
  lemma FailureMeans(e: Embedder, pipeline: P.OneAheadPipeline<Batch, Error>, texts: seq<string>)
    requires e.batchSize >= 1 && pipeline.Valid() && pipeline.cancellation == Cancelled
    requires pipeline.produce == e.Producer(texts)
    requires pipeline.s.count == (|texts| + e.batchSize - 1) / e.batchSize
    ensures pipeline.s.failed.Some? ==>
      || (pipeline.s.failed.value == Cancelled && pipeline.s.cancelled)
      || (pipeline.s.failed.value == Tokenize && !Encodes(e.model, texts))
  {
    hide Encodes, EncodeAll, P.Inv;
    var k := |pipeline.s.made|;
    if pipeline.s.failed.Some? && k < pipeline.s.count && pipeline.produce(k) == P.Failure(pipeline.s.failed.value) {
      assert e.ChunkAnswer(texts, k) == P.Failure(pipeline.s.failed.value);
      ChunkOf(k, e.batchSize, |texts|);
      var lo := k * e.batchSize;
      var hi := if lo + e.batchSize < |texts| then lo + e.batchSize else |texts|;
      EncodesAll(e.model, texts[lo..hi]);
      if Encodes(e.model, texts) {
        StretchEncodes(e.model, texts, lo, hi);
      }
    }
  }

  lemma StretchEncodes(m: Model, texts: seq<string>, lo: nat, hi: nat)
    requires lo <= hi <= |texts| && Encodes(m, texts)
    ensures Encodes(m, texts[lo..hi])
  {
    hide Encode;
    assert forall i :: 0 <= i < hi - lo ==> texts[lo..hi][i] == texts[lo + i];
  }
}
