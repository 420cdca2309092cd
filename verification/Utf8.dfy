// UTF-8 validity of RFC 3629, section 4, on byte strings whose characters are 0..255.
module Utf8 {

  predicate Cont(c: char) { 0x80 <= c as int <= 0xBF }

  predicate Between(c: char, lo: int, hi: int) { lo <= c as int <= hi }

  // The length of the well-formed sequence starting at i, or 0.
  function SeqLen(s: string, i: nat): (n: nat)
    requires i < |s|
    ensures n <= 4 && i + n <= |s|
    ensures forall k :: i < k < i + n ==> Cont(s[k])
  {
    var b := s[i];
    if Between(b, 0, 0x7F) then 1
    else if Between(b, 0xC2, 0xDF) then if i + 1 < |s| && Cont(s[i + 1]) then 2 else 0
    else if Between(b, 0xE0, 0xEF) then
      if i + 2 < |s| && Second3(b, s[i + 1]) && Cont(s[i + 2]) then 3 else 0
    else if Between(b, 0xF0, 0xF4) then
      if i + 3 < |s| && Second4(b, s[i + 1]) && Cont(s[i + 2]) && Cont(s[i + 3]) then 4 else 0
    else 0
  }

  predicate Second3(b: char, c: char) {
    if b as int == 0xE0 then Between(c, 0xA0, 0xBF)
    else if b as int == 0xED then Between(c, 0x80, 0x9F)
    else Cont(c)
  }

  predicate Second4(b: char, c: char) {
    if b as int == 0xF0 then Between(c, 0x90, 0xBF)
    else if b as int == 0xF4 then Between(c, 0x80, 0x8F)
    else Cont(c)
  }

  predicate ValidFrom(s: string, i: nat)
    requires i <= |s|
    decreases |s| - i
  {
    i == |s| || (SeqLen(s, i) > 0 && ValidFrom(s, i + SeqLen(s, i)))
  }

  predicate Valid(s: string) { ValidFrom(s, 0) }

  lemma SeqLenCut(s: string, i: nat, p: nat)
    requires i < |s| && SeqLen(s, i) > 0 && i + SeqLen(s, i) <= p <= |s|
    ensures SeqLen(s[..p], i) == SeqLen(s, i)
  {
    var t := s[..p];
    assert forall k :: i <= k < p ==> t[k] == s[k];
  }

  // Below every position of a valid text there is a boundary at most three bytes away.
  lemma {:induction false} BoundaryBelow(s: string, i: nat, limit: nat) returns (p: nat)
    requires i <= limit <= |s| && ValidFrom(s, i)
    ensures i <= p <= limit < p + 4 && ValidFrom(s[..p], i)
    ensures limit < |s| && !Cont(s[limit]) ==> p == limit
    decreases |s| - i
  {
    if i == limit || i + SeqLen(s, i) > limit {
      p := i;
      assert i < limit ==> Cont(s[limit]);
    } else {
      p := BoundaryBelow(s, i + SeqLen(s, i), limit);
      SeqLenCut(s, i, p);
    }
  }

  // Drops trailing bytes until the rest is valid.
  function WalkBack(s: string): (r: string)
    ensures |r| <= |s| && r == s[..|r|] && Valid(r)
    ensures forall p: nat :: |r| < p <= |s| ==> !Valid(s[..p])
  {
    if s == "" || Valid(s) then
      assert s[..|s|] == s;
      s
    else
      var r := WalkBack(s[..|s| - 1]);
      assert forall p :: 0 <= p <= |s| - 1 ==> s[..|s| - 1][..p] == s[..p];
      assert s[..|s|] == s;
      r
  }

  // On valid text the walk gives up at most three bytes.
  lemma WalkBackLoses(s: string, limit: nat)
    requires Valid(s) && limit <= |s|
    ensures |WalkBack(s[..limit])| + 3 >= limit
  {
    var p := BoundaryBelow(s, 0, limit);
    assert s[..limit][..p] == s[..p];
  }

  // Cutting valid text in front of an ASCII byte keeps it valid.
  lemma CutBeforeAscii(s: string, k: nat)
    requires Valid(s) && k < |s| && s[k] as int < 0x80
    ensures Valid(s[..k])
  {
    var p := BoundaryBelow(s, 0, k);
  }
}
