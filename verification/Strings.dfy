// strings.Split and strings.Join on a one-character separator, and strings.TrimSpace.
module Strings {

  function Split(s: string, sep: char): (r: seq<string>)
    ensures |r| >= 1
  {
    if s == "" then [""]
    else
      var rest := Split(s[1..], sep);
      if s[0] == sep then [""] + rest else [[s[0]] + rest[0]] + rest[1..]
  }

  function Join(parts: seq<string>, sep: char): string {
    if parts == [] then ""
    else if |parts| == 1 then parts[0]
    else parts[0] + [sep] + Join(parts[1..], sep)
  }

  predicate Lacks(s: string, c: char) { forall i :: 0 <= i < |s| ==> s[i] != c }

  predicate AllLack(parts: seq<string>, c: char) { forall i :: 0 <= i < |parts| ==> Lacks(parts[i], c) }

  lemma {:induction false} JoinSplit(s: string, sep: char)
    ensures Join(Split(s, sep), sep) == s
  {
    if s != "" {
      JoinSplit(s[1..], sep);
      var rest := Split(s[1..], sep);
      if s[0] == sep {
        assert ([""] + rest)[1..] == rest;
      } else {
        var r := [[s[0]] + rest[0]] + rest[1..];
        assert r[1..] == rest[1..];
      }
    }
  }

  lemma {:induction false} SplitLacks(s: string, sep: char)
    ensures AllLack(Split(s, sep), sep)
  {
    if s != "" {
      SplitLacks(s[1..], sep);
      var rest := Split(s[1..], sep);
      assert Lacks(rest[0], sep);
      forall i | 0 <= i < |Split(s, sep)| ensures Lacks(Split(s, sep)[i], sep) {
        if s[0] != sep && i > 0 { assert Split(s, sep)[i] == rest[i]; }
        if s[0] == sep && i > 0 { assert Split(s, sep)[i] == rest[i - 1]; }
      }
    }
  }

  lemma {:induction false} SplitPlain(s: string, sep: char)
    requires Lacks(s, sep)
    ensures Split(s, sep) == [s]
  {
    if s != "" {
      SplitPlain(s[1..], sep);
      assert [s[0]] + s[1..] == s;
    }
  }

  lemma SplitHead(s: string, sep: char)
    requires s != ""
    ensures s[0] == sep ==> Split(s, sep) == [""] + Split(s[1..], sep)
    ensures s[0] != sep ==> Split(s, sep) == [[s[0]] + Split(s[1..], sep)[0]] + Split(s[1..], sep)[1..]
  {
  }

  // Splitting at a separator distributes over concatenation around it.
  lemma {:induction false} SplitConcat(a: string, b: string, sep: char)
    ensures Split(a + [sep] + b, sep) == Split(a, sep) + Split(b, sep)
  {
    hide Split;
    var s := a + [sep] + b;
    SplitHead(s, sep);
    if a == "" {
      SplitPlain("", sep);
      assert s[1..] == b;
    } else {
      SplitConcat(a[1..], b, sep);
      SplitHead(a, sep);
      assert s[1..] == a[1..] + [sep] + b;
      var ra, rb := Split(a[1..], sep), Split(b, sep);
      if a[0] == sep {
        assert [""] + (ra + rb) == ([""] + ra) + rb;
      } else {
        assert (ra + rb)[0] == ra[0] && (ra + rb)[1..] == ra[1..] + rb;
        assert [[a[0]] + ra[0]] + (ra[1..] + rb) == ([[a[0]] + ra[0]] + ra[1..]) + rb;
      }
    }
  }

  lemma {:induction false} SplitJoin(parts: seq<string>, sep: char)
    requires parts != [] && AllLack(parts, sep)
    ensures Split(Join(parts, sep), sep) == parts
  {
    assert Lacks(parts[0], sep);
    SplitPlain(parts[0], sep);
    if |parts| > 1 {
      SplitConcat(parts[0], Join(parts[1..], sep), sep);
      SplitJoin(parts[1..], sep);
    }
  }

  lemma {:induction false} JoinTake(parts: seq<string>, k: nat, sep: char)
    requires 0 < k < |parts|
    ensures Join(parts, sep) == Join(parts[..k], sep) + [sep] + Join(parts[k..], sep)
  {
    if k > 1 {
      JoinTake(parts[1..], k - 1, sep);
      assert parts[1..][..k - 1] == parts[..k][1..];
      assert parts[1..][k - 1..] == parts[k..];
    }
  }

  // unicode.IsSpace
  predicate IsSpace(c: char) {
    var n := c as int;
    (9 <= n <= 13) || n == 32 || n == 0x85 || n == 0xA0 || n == 0x1680 || (0x2000 <= n <= 0x200a)
    || n == 0x2028 || n == 0x2029 || n == 0x202f || n == 0x205f || n == 0x3000
  }

  function TrimLeft(s: string): string {
    if s != "" && IsSpace(s[0]) then TrimLeft(s[1..]) else s
  }

  function TrimRight(s: string): string {
    if s != "" && IsSpace(s[|s| - 1]) then TrimRight(s[..|s| - 1]) else s
  }

  function TrimSpace(s: string): string { TrimRight(TrimLeft(s)) }
}
