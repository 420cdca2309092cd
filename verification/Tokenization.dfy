// Encoding a batch of texts into flat row-major tensors: embedding/tokenizer.go:79-171, 225-249.
module Tokenization {
  import opened Prelude
  import opened EmbedSpec
  import opened OnnxSession

  // The flattened rows of a batch and their token counts.
  datatype Batch = Batch(ids: seq<int>, mask: seq<int>, types: seq<int>, lengths: seq<nat>)

  function AddRow(b: Batch, row: Row, length: nat): Batch {
    Batch(b.ids + row.ids, b.mask + row.mask, b.types + row.types, b.lengths + [length])
  }

  // All rows one behind the other, if every text encodes.
  function EncodeAll(m: Model, texts: seq<string>): Option<Batch> {
    if texts == [] then Some(Batch([], [], [], []))
    else
      match EncodeAll(m, texts[..|texts| - 1])
      case None => None
      case Some(b) =>
        match Encode(m, texts[|texts| - 1])
        case None => None
        case Some(e) => Some(AddRow(b, e.0, e.1))
  }

  predicate Encodes(m: Model, texts: seq<string>) {
    forall i :: 0 <= i < |texts| ==> Encode(m, texts[i]).Some?
  }

  lemma EncodeStep(m: Model, texts: seq<string>, i: nat)
    requires i < |texts|
    ensures EncodeAll(m, texts[..i + 1])
         == (match EncodeAll(m, texts[..i])
             case None => None
             case Some(b) =>
               match Encode(m, texts[i])
               case None => None
               case Some(e) => Some(AddRow(b, e.0, e.1)))
  {
    hide Encode;
    assert texts[..i + 1][..i] == texts[..i];
  }

  // A batch encodes exactly when each of its texts does.
  lemma {:induction false} EncodesAll(m: Model, texts: seq<string>)
    ensures EncodeAll(m, texts).Some? <==> Encodes(m, texts)
  {
    hide Encode;
    if texts != [] {
      var n := |texts| - 1;
      EncodesAll(m, texts[..n]);
      assert forall i :: 0 <= i < n ==> texts[..n][i] == texts[i];
    }
  }

  lemma EncodedShape(m: Model, text: string)
    ensures Encode(m, text).Some? ==>
      Shaped(Encode(m, text).value.0, m.maxSeqLen) && Encode(m, text).value.1 <= m.maxSeqLen
  {
    if Encode(m, text).Some? {
      var raw := m.tokenize(text).value;
      CutIsPadding(raw, m.maxSeqLen, m.maxSeqLen);
    }
  }

  lemma {:induction false} BatchSize(m: Model, texts: seq<string>)
    requires EncodeAll(m, texts).Some?
    ensures var b := EncodeAll(m, texts).value;
            |b.ids| == |b.mask| == |b.types| == |texts| * m.maxSeqLen && |b.lengths| == |texts|
  {
    hide Encode;
    if texts != [] {
      var n := |texts| - 1;
      BatchSize(m, texts[..n]);
      EncodedShape(m, texts[n]);
      assert |texts| * m.maxSeqLen == n * m.maxSeqLen + m.maxSeqLen;
    }
  }

  // Row i of the batch is text i.
  lemma {:induction false} BatchRow(m: Model, texts: seq<string>, i: nat)
    requires EncodeAll(m, texts).Some? && i < |texts|
    ensures var b := EncodeAll(m, texts).value;
            && |b.ids| == |b.mask| == |b.types| == |texts| * m.maxSeqLen && |b.lengths| == |texts|
            && i * m.maxSeqLen + m.maxSeqLen <= |b.ids|
            && Encode(m, texts[i]) == Some((RowAt(b.ids, b.mask, b.types, i, m.maxSeqLen), b.lengths[i]))
  {
    hide Encode;
    var n, len := |texts| - 1, m.maxSeqLen;
    BatchSize(m, texts);
    RowFits(i, |texts|, len);
    BatchSize(m, texts[..n]);
    EncodedShape(m, texts[n]);
    var b := EncodeAll(m, texts).value;
    var init := EncodeAll(m, texts[..n]).value;
    if i < n {
      BatchRow(m, texts[..n], i);
      SlicePrefix(init.ids, b.ids, i, len);
      SlicePrefix(init.mask, b.mask, i, len);
      SlicePrefix(init.types, b.types, i, len);
    } else {
      var row := Encode(m, texts[n]).value.0;
      SliceLast(init.ids, row.ids, n, len);
      SliceLast(init.mask, row.mask, n, len);
      SliceLast(init.types, row.types, n, len);
    }
  }

  lemma SliceLast(init: seq<int>, row: seq<int>, n: nat, len: nat)
    requires |init| == n * len && |row| == len
    ensures Slice(init + row, n, len) == row
  {
  }

  // ---------------------------------------------------------------------
  // The encoder
  // ---------------------------------------------------------------------

  // Truncate, widen and pad one encoding.
  method EncodeWithLength(m: Model, text: string) returns (r: Option<(Row, nat)>)
    ensures r == Encode(m, text)
    ensures r.None? <==> m.maxSeqLen < 2 || m.tokenize(text).None?
    ensures r.Some? ==> EncodingOf(m.tokenize(text).value, m.maxSeqLen, r.value.0, r.value.1)
  {
    hide EncodingOf, Padded, KeptLen;
    var maxLen := m.maxSeqLen;
    if maxLen < 2 {
      return None;
    }
    var encoded := m.tokenize(text);
    if encoded.None? {
      return None;
    }
    PaddedHolds(encoded.value, maxLen);
    var row, seqLen := CopyTokens(encoded.value, maxLen);
    r := Some((row, seqLen));
  }

  method CopyTokens(raw: Row, maxLen: nat) returns (row: Row, seqLen: nat)
    ensures row == Padded(raw, maxLen) && seqLen == KeptLen(raw, maxLen)
  {
    seqLen := |raw.ids|;
    if seqLen > maxLen {
      seqLen := maxLen;
    }
    if |raw.mask| < seqLen {
      seqLen := |raw.mask|;
    }
    if |raw.types| < seqLen {
      seqLen := |raw.types|;
    }
    var ids := new int[maxLen](i => 0);
    var mask := new int[maxLen](i => 0);
    var types := new int[maxLen](i => 0);
    for i := 0 to seqLen
      invariant ids[..] == PadTo(raw.ids[..i], maxLen)
      invariant mask[..] == PadTo(raw.mask[..i], maxLen)
      invariant types[..] == PadTo(raw.types[..i], maxLen)
    {
      ids[i] := raw.ids[i];
      mask[i] := raw.mask[i];
      types[i] := raw.types[i];
    }
    row := Row(ids[..], mask[..], types[..]);
  }

  // Writing a row behind the rows already written.
  method AppendRow(tensor: array<int>, offset: nat, row: seq<int>, ghost written: seq<int>)
    requires |written| == offset && offset + |row| <= tensor.Length && tensor[..] == PadTo(written, tensor.Length)
    modifies tensor
    ensures tensor[..] == PadTo(written + row, tensor.Length)
  {
    forall i | 0 <= i < |row| {
      tensor[offset + i] := row[i];
    }
  }

  // From offset on, position p holds the p-th token while there is one, then zeros.
  ghost predicate TokensFrom(raw: Row, n: nat, len: nat, b: Batch, offset: int) {
    && n <= len && n <= |raw.ids| && n <= |raw.mask| && n <= |raw.types|
    && (n == len || n == |raw.ids| || n == |raw.mask| || n == |raw.types|)
    && 0 <= offset && offset + len <= |b.ids| && |b.ids| == |b.mask| == |b.types|
    && forall p: nat :: p < len ==>
         TokenAt(b, offset + p, if p < n then (raw.ids[p], raw.mask[p], raw.types[p]) else (0, 0, 0))
  }

  predicate TokenAt(b: Batch, k: int, t: (int, int, int)) {
    0 <= k < |b.ids| && |b.ids| == |b.mask| == |b.types| && (b.ids[k], b.mask[k], b.types[k]) == t
  }

  // Row i of the batch holds the tokens of the text, and its length is their number.
  ghost predicate RowHolds(m: Model, text: string, b: Batch, i: nat) {
    m.tokenize(text).Some? && i < |b.lengths| && TokensFrom(m.tokenize(text).value, b.lengths[i], m.maxSeqLen, b, i * m.maxSeqLen)
  }

  lemma BatchHolds(m: Model, texts: seq<string>, i: nat)
    requires EncodeAll(m, texts).Some? && i < |texts|
    ensures RowHolds(m, texts[i], EncodeAll(m, texts).value, i)
  {
    hide EncodeAll, Padded, KeptLen, RowAt, EncodingOf, TokensFrom;
    BatchRow(m, texts, i);
    var b, len := EncodeAll(m, texts).value, m.maxSeqLen;
    var raw := m.tokenize(texts[i]).value;
    PaddedHolds(raw, len);
    RowTokens(raw, b.lengths[i], len, b, i, i * len);
  }

  lemma RowTokens(raw: Row, n: nat, len: nat, b: Batch, i: nat, offset: int)
    requires |b.ids| == |b.mask| == |b.types| && i * len + len <= |b.ids| && offset == i * len
    requires EncodingOf(raw, len, RowAt(b.ids, b.mask, b.types, i, len), n)
    ensures TokensFrom(raw, n, len, b, offset)
  {
    var row := RowAt(b.ids, b.mask, b.types, i, len);
    forall p: nat | p < len
      ensures TokenAt(b, offset + p, if p < n then (raw.ids[p], raw.mask[p], raw.types[p]) else (0, 0, 0))
    {
      SliceAt(b.ids, i, len, p);
      SliceAt(b.mask, i, len, p);
      SliceAt(b.types, i, len, p);
      assert row.ids[p] == b.ids[offset + p];
    }
    ProductNat(i, len);
  }

  lemma BatchesHold(m: Model, texts: seq<string>)
    requires EncodeAll(m, texts).Some?
    ensures forall i: nat :: i < |texts| ==> RowHolds(m, texts[i], EncodeAll(m, texts).value, i)
  {
    hide EncodeAll, RowHolds;
    forall i: nat | i < |texts| ensures RowHolds(m, texts[i], EncodeAll(m, texts).value, i) {
      BatchHolds(m, texts, i);
    }
  }

  method EncodeBatchWithLengths(m: Model, texts: seq<string>) returns (r: Option<Batch>)
    ensures r == EncodeAll(m, texts)
    ensures r.Some? ==> forall i: nat :: i < |texts| ==> RowHolds(m, texts[i], r.value, i)
  {
    hide Encode, PadTo, EncodeAll, RowHolds, EncodingOf;
    var maxLen := m.maxSeqLen;
    ProductNat(|texts|, maxLen);
    var total := |texts| * maxLen;
    var ids := new int[total](i => 0);
    var mask := new int[total](i => 0);
    var types := new int[total](i => 0);
    var lengths: seq<nat> := [];
    EncodeNone(m, total);
    ghost var done := Batch([], [], [], []);
    assert ids[..] == Zeros(total) && mask[..] == Zeros(total) && types[..] == Zeros(total);
    for i := 0 to |texts|
      invariant EncodeAll(m, texts[..i]) == Some(done) && lengths == done.lengths
      invariant |done.ids| == |done.mask| == |done.types| == i * maxLen
      invariant ids[..] == PadTo(done.ids, total) && mask[..] == PadTo(done.mask, total) && types[..] == PadTo(done.types, total)
    {
      EncodeStep(m, texts, i);
      var e := EncodeWithLength(m, texts[i]);
      if e.None? {
        StaysNone(m, texts, i + 1);
        return None;
      }
      var row, actualLen := e.value.0, e.value.1;
      EncodedShape(m, texts[i]);
      RowFits(i, |texts|, maxLen);
      var offset := i * maxLen;
      assert (i + 1) * maxLen == offset + maxLen;
      AppendRow(ids, offset, row.ids, done.ids);
      AppendRow(mask, offset, row.mask, done.mask);
      AppendRow(types, offset, row.types, done.types);
      lengths := lengths + [actualLen];
      done := AddRow(done, row, actualLen);
    }
    assert texts[..|texts|] == texts;
    FullPad(done.ids, total);
    FullPad(done.mask, total);
    FullPad(done.types, total);
    r := Some(Batch(ids[..], mask[..], types[..], lengths));
    BatchesHold(m, texts);
  }

  lemma EncodeNone(m: Model, total: nat)
    ensures EncodeAll(m, []) == Some(Batch([], [], [], [])) && PadTo([], total) == Zeros(total)
  {
  }

  lemma FullPad(s: seq<int>, total: nat)
    requires |s| == total
    ensures PadTo(s, total) == s
  {
  }

  lemma {:induction false} StaysNone(m: Model, texts: seq<string>, i: nat)
    requires i <= |texts| && EncodeAll(m, texts[..i]).None?
    ensures EncodeAll(m, texts).None?
  {
    EncodesAll(m, texts[..i]);
    EncodesAll(m, texts);
    assert forall k :: 0 <= k < i ==> texts[..i][k] == texts[k];
  }
}
