// Vocabulary shared by every component.
module Prelude {

  datatype Option<+T> = None | Some(value: T)

  // The elements of a sequence.
  function Elems<T>(s: seq<T>): set<T> { set x | x in s }

  // No element occurs twice.
  ghost predicate Distinct<T>(s: seq<T>) {
    forall i, j :: 0 <= i < j < |s| ==> s[i] != s[j]
  }

  lemma {:induction false} DistinctCard<T>(s: seq<T>)
    requires Distinct(s)
    ensures |Elems(s)| == |s|
  {
    if s != [] {
      DistinctCard(s[1..]);
      assert Elems(s) == {s[0]} + Elems(s[1..]);
    }
  }

  lemma {:induction false} ElemsCardAtMost<T>(s: seq<T>)
    ensures |Elems(s)| <= |s|
  {
    if s != [] {
      ElemsCardAtMost(s[1..]);
      assert Elems(s) == {s[0]} + Elems(s[1..]);
    }
  }

  // Only a duplicate-free sequence has as many elements as positions.
  lemma {:induction false} CardDistinct<T>(s: seq<T>)
    requires |Elems(s)| == |s|
    ensures Distinct(s)
  {
    if s != [] {
      assert Elems(s) == {s[0]} + Elems(s[1..]);
      ElemsCardAtMost(s[1..]);
      CardDistinct(s[1..]);
      assert s[0] !in Elems(s[1..]);
    }
  }

  lemma SubsetCard<T>(a: set<T>, b: set<T>)
    requires a <= b
    ensures |a| <= |b|
    ensures |a| == |b| ==> a == b
  {
    assert b == a + (b - a);
    assert |b| == |a| + |b - a|;
  }

  // A sequence longer than the set it draws from repeats an element.
  lemma Pigeonhole<T>(s: seq<T>, pool: set<T>) returns (i: nat, j: nat)
    requires Elems(s) <= pool
    requires |s| > |pool|
    ensures i < j < |s| && s[i] == s[j]
  {
    if Distinct(s) {
      DistinctCard(s);
      SubsetCard(Elems(s), pool);
      assert false;
    }
    i, j :| 0 <= i < j < |s| && s[i] == s[j];
  }

  // The decimal numeral of n, as %d prints it.
  function Decimal(n: int): string
    decreases if n < 0 then 1 - n else n
  {
    if n < 0 then "-" + Decimal(-n)
    else if n < 10 then [('0' as int + n) as char]
    else Decimal(n / 10) + [('0' as int + n % 10) as char]
  }

  predicate OccursAt(s: string, p: string, i: nat) {
    i + |p| <= |s| && s[i..i + |p|] == p
  }

  ghost predicate Contains(s: string, p: string) {
    exists i :: OccursAt(s, p, i)
  }

  lemma ContainsMiddle(a: string, p: string, b: string)
    ensures Contains(a + p + b, p)
  {
    var s := a + p + b;
    assert s[|a|..|a| + |p|] == p;
    assert OccursAt(s, p, |a|);
  }
}
