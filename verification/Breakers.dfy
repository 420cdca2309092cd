// The circuit breakers of agent/executor_run.go:1867-2165: what they count, and when they stop a call or a result.
module Breakers {
  import opened ExecutorSpec

  // Thresholds and counters of the circuit breakers; a threshold of 0 is off.
  datatype Breaker = Breaker(
    repeatNudge: nat, repeatAbort: nat, fruitlessNudge: nat, fruitlessAbort: nat, fruitlessMaxLen: nat,
    sameNudge: nat, sameAbort: nat, sizeDelta: nat, parseAbort: nat, truncationAbort: nat,
    lastKey: string, repeats: nat, lastError: bool,
    fruitless: nat, fruitlessNudged: bool,
    sameName: string, sameCount: nat, sameLen: nat, sameError: bool, sameNudged: bool,
    parseTool: string, parseErrors: nat, truncations: nat)

  const DISABLED: nat := 0x4000_0000

  // A count is at a threshold that is on; a nudge is given once.
  predicate At(threshold: nat, n: nat) { threshold > 0 && n >= threshold }

  predicate Trips(abort: nat, nudge: nat, nudged: bool, n: nat) { At(abort, n) || (At(nudge, n) && !nudged) }

  function Lowered(threshold: nat, lower: bool): nat { if lower && threshold > 0 then threshold - 1 else threshold }

  // What two identical calls have in common.
  function CallKey(call: Call, compact: string -> string): string { call.name + ":" + compact(call.input) }

  // Calls of colon-free tools have the same key if and only if they name the same tool and their inputs have the same
  // compact form.
  lemma KeyTells(a: Call, b: Call, compact: string -> string)
    requires ':' !in a.name && ':' !in b.name
    ensures CallKey(a, compact) == CallKey(b, compact) <==> a.name == b.name && compact(a.input) == compact(b.input)
  {
    FirstColon(a.name, compact(a.input));
    FirstColon(b.name, compact(b.input));
  }

  lemma FirstColon(name: string, rest: string)
    requires ':' !in name
    ensures var key := name + ":" + rest;
            && (forall i :: 0 <= i < |name| ==> key[i] != ':') && key[|name|] == ':'
            && key[..|name|] == name && key[|name| + 1..] == rest
  {
  }

  // How often the same call has been made in a row, this one included.
  function RepeatsNow(b: Breaker, key: string): nat { if key == b.lastKey then b.repeats + 1 else 1 }

  // The call has been repeated often enough to be stopped.
  predicate RepeatTrips(b: Breaker, key: string) {
    var lower := key == b.lastKey && b.lastError;
    At(Lowered(b.repeatAbort, lower), RepeatsNow(b, key)) || At(Lowered(b.repeatNudge, lower), RepeatsNow(b, key))
  }

  // The count of fruitless results with this one; errors leave it alone.
  function FruitlessNow(b: Breaker, isError: bool, length: nat): nat {
    if isError then b.fruitless
    else if length <= (if b.fruitlessMaxLen == 0 then 32 else b.fruitlessMaxLen) then b.fruitless + 1
    else 0
  }

  // How many calls of one tool with similar results have been made in a row, this one included.
  function SameToolNow(b: Breaker, name: string, isError: bool, length: nat): nat {
    var delta := if b.sizeDelta == 0 then 64 else b.sizeDelta;
    var diff := if length < b.sameLen then b.sameLen - length else length - b.sameLen;
    if !(b.sameError && !isError) && name == b.sameName && diff <= delta then b.sameCount + 1 else 1
  }

  function ParseErrorsNow(b: Breaker, name: string): nat { if name == b.parseTool then b.parseErrors + 1 else 1 }

  // Neither the count of minimal results nor that of similar ones stops a result.
  predicate CountsPass(b: Breaker, name: string, o: Outcome)
    requires o.Result?
  {
    Exempt(name)
    || (!Trips(b.fruitlessAbort, b.fruitlessNudge, b.fruitlessNudged, FruitlessNow(b, o.isError, o.length))
        && !Trips(b.sameAbort, b.sameNudge, b.sameNudged, SameToolNow(b, name, o.isError, o.length)))
  }

  function ResultCounts(b: Breaker, name: string, o: Outcome): Breaker
    requires o.Result?
  {
    if Exempt(name) then b.(fruitless := 0, sameCount := 0, sameName := "", sameLen := 0, sameError := false)
    else b.(fruitless := FruitlessNow(b, o.isError, o.length), sameCount := SameToolNow(b, name, o.isError, o.length),
            sameName := name, sameLen := o.length, sameError := o.isError)
  }

  // No breaker stops a result, that of parse errors included.
  predicate Passes(b: Breaker, name: string, o: Outcome, parses: bool)
    requires o.Result?
  {
    CountsPass(b, name, o) && !(parses && o.isError && o.parseError && At(b.parseAbort, ParseErrorsNow(b, name)))
  }

  // The counts behind a result that passed.
  function CountsAfter(b: Breaker, name: string, o: Outcome, parses: bool): Breaker
    requires o.Result?
  {
    var c := ResultCounts(b, name, o);
    if !parses || (o.isError && !o.parseError) then c
    else if o.isError then c.(parseTool := name, parseErrors := ParseErrorsNow(b, name))
    else c.(parseTool := "", parseErrors := 0)
  }

  lemma ParseApart(b: Breaker, name: string, o: Outcome)
    requires o.Result?
    ensures var c := ResultCounts(b, name, o);
            c.parseAbort == b.parseAbort && c.parseTool == b.parseTool && c.parseErrors == b.parseErrors
  {
  }

  // A result with which the response goes on: no breaker stops it, and it is no successful stop tool.
  predicate GoesOn(b: Breaker, stopTools: set<string>, name: string, o: Outcome, parses: bool) {
    o.Result? && Passes(b, name, o, parses) && (o.isError || name !in stopTools)
  }

  // The breakers of results do not look at the count of repeated calls.
  lemma GoesOnSame(b: Breaker, c: Breaker, stopTools: set<string>, name: string, o: Outcome, parses: bool)
    requires c == b.(repeats := c.repeats, lastKey := c.lastKey, lastError := c.lastError)
    ensures GoesOn(b, stopTools, name, o, parses) <==> GoesOn(c, stopTools, name, o, parses)
  {
    hide Exempt;
  }

  // ---------------------------------------------------------------------
  // What is counted
  // ---------------------------------------------------------------------

  // The breaker behind calls that did not fail.
  function Called(b: Breaker, keys: seq<string>): Breaker {
    if keys == [] then b
    else
      var c, key := Called(b, keys[..|keys| - 1]), keys[|keys| - 1];
      c.(repeats := RepeatsNow(c, key), lastKey := key, lastError := false)
  }

  function Times<T>(x: T, m: nat): (r: seq<T>)
    ensures |r| == m && forall i :: 0 <= i < m ==> r[i] == x
  {
    seq(m, i requires 0 <= i < m => x)
  }

  // The same call m times in a row, behind another one, counts m, and the thresholds are compared with that.
  lemma {:induction false} RepeatsInARow(b: Breaker, key: string, m: nat)
    requires b.lastKey != key
    ensures var c := Called(b, Times(key, m));
            && c == (if m == 0 then b else b.(repeats := m, lastKey := key, lastError := false))
            && (RepeatTrips(c, key) <==> (0 < b.repeatAbort <= m + 1) || (0 < b.repeatNudge <= m + 1))
  {
    hide RepeatTrips;
    if m > 0 {
      RepeatsInARow(b, key, m - 1);
      assert Times(key, m)[..m - 1] == Times(key, m - 1);
    }
    TripsNext(b, key, m);
  }

  lemma TripsNext(b: Breaker, key: string, m: nat)
    requires b.lastKey != key
    ensures var c := if m == 0 then b else b.(repeats := m, lastKey := key, lastError := false);
            RepeatTrips(c, key) <==> (0 < b.repeatAbort <= m + 1) || (0 < b.repeatNudge <= m + 1)
  {
  }

  // Behind a failed call the next identical one meets thresholds lower by one. One that is 1 is switched off by that
  // instead: it trips for an error no later than without one, if and only if it is not 1.
  lemma LoweringIff(threshold: nat)
    ensures (forall n: nat :: At(threshold, n) ==> At(Lowered(threshold, true), n)) <==> threshold != 1
    ensures threshold > 1 ==> forall n: nat :: At(Lowered(threshold, true), n) <==> n + 1 >= threshold
    ensures Lowered(threshold, false) == threshold
  {
    assert At(threshold, threshold) <==> threshold > 0;
    if threshold == 1 {
      assert At(1, 1) && !At(Lowered(1, true), 1);
    }
  }

  // The breaker behind results of one tool.
  function Seen(b: Breaker, name: string, os: seq<Outcome>): Breaker
    requires AllResults(os)
  {
    if os == [] then b else ResultCounts(Seen(b, name, os[..|os| - 1]), name, os[|os| - 1])
  }

  predicate AllResults(os: seq<Outcome>) { forall i :: 0 <= i < |os| ==> os[i].Result? }

  function Limit(own: nat, default: nat): nat { if own == 0 then default else own }

  // A success of few characters.
  predicate Fruitless(b: Breaker, o: Outcome) { o.Result? && !o.isError && o.length <= Limit(b.fruitlessMaxLen, 32) }

  function CountFruitless(b: Breaker, os: seq<Outcome>): nat {
    if os == [] then 0 else CountFruitless(b, os[..|os| - 1]) + if Fruitless(b, os[|os| - 1]) then 1 else 0
  }

  // The count of fruitless results is how many there were since the last fruitful one; errors do not matter.
  lemma {:induction false} FruitlessSince(b: Breaker, name: string, o: Outcome, os: seq<Outcome>)
    requires !Exempt(name) && o.Result? && AllResults(os)
    requires !o.isError && !Fruitless(b, o)
    requires forall i :: 0 <= i < |os| ==> os[i].isError || Fruitless(b, os[i])
    ensures Seen(b, name, [o] + os).fruitless == CountFruitless(b, os)
    ensures Seen(b, name, [o] + os).fruitlessMaxLen == b.fruitlessMaxLen
  {
    var all := [o] + os;
    if os == [] {
      assert all[..0] == [] && all == [o];
    } else {
      FruitlessSince(b, name, o, os[..|os| - 1]);
      assert all[..|all| - 1] == [o] + os[..|os| - 1];
    }
  }

  // A result like the one before: of similar length, and no success behind a failure.
  predicate Alike(b: Breaker, before: Outcome, o: Outcome) {
    && before.Result? && o.Result? && !(before.isError && !o.isError)
    && before.length - Limit(b.sizeDelta, 64) <= o.length <= before.length + Limit(b.sizeDelta, 64)
  }

  // As many results of one tool as are alike in a row, behind those of another tool, count as many; one that is not
  // alike starts over.
  lemma {:induction false} AlikeInARow(b: Breaker, name: string, os: seq<Outcome>)
    requires !Exempt(name) && AllResults(os) && os != [] && b.sameName != name
    requires forall i :: 0 < i < |os| - 1 ==> Alike(b, os[i - 1], os[i])
    ensures var c, n := Seen(b, name, os), |os| - 1;
            && c.sameCount == (if n == 0 || Alike(b, os[n - 1], os[n]) then |os| else 1)
            && c.sameName == name && c.sameLen == os[n].length && c.sameError == os[n].isError && c.sizeDelta == b.sizeDelta
  {
    var n := |os| - 1;
    if n == 0 {
      assert os[..0] == [];
    } else {
      var init := os[..n];
      AlikeInARow(b, name, init);
      assert init[|init| - 1] == os[n - 1];
      assert |init| > 1 ==> Alike(b, init[|init| - 2], init[|init| - 1]);
    }
  }

  // A tool that changes something, or is a meta-tool, clears both counts.
  lemma ExemptClears(b: Breaker, name: string, o: Outcome)
    requires o.Result? && Exempt(name)
    ensures var c := ResultCounts(b, name, o); c.fruitless == 0 && c.sameCount == 0 && CountsPass(b, name, o)
  {
  }

  // The breaker behind inputs of one tool that could not be parsed.
  function Unparsed(b: Breaker, name: string, os: seq<Outcome>): Breaker
    requires AllResults(os)
  {
    if os == [] then b else CountsAfter(Unparsed(b, name, os[..|os| - 1]), name, os[|os| - 1], true)
  }

  // So many in a row count so many; a success clears the count.
  lemma {:induction false} ParseErrorsInARow(b: Breaker, name: string, os: seq<Outcome>)
    requires b.parseTool != name && AllResults(os) && forall i :: 0 <= i < |os| ==> os[i].isError && os[i].parseError
    ensures var c := Unparsed(b, name, os);
            && (os != [] ==> c.parseErrors == |os| && c.parseTool == name)
            && (os == [] ==> c == b)
            && forall o: Outcome :: o.Result? && !o.isError ==> CountsAfter(c, name, o, true).parseErrors == 0
  {
    if os != [] {
      ParseErrorsInARow(b, name, os[..|os| - 1]);
    }
  }

  // Which results end the response.
  lemma StopsMeans(b: Breaker, stopTools: set<string>, name: string, o: Outcome, parses: bool)
    requires o.Result?
    ensures var f, n := FruitlessNow(b, o.isError, o.length), SameToolNow(b, name, o.isError, o.length);
            !GoesOn(b, stopTools, name, o, parses) <==>
              || (!o.isError && name in stopTools)
              || (!Exempt(name) && (0 < b.fruitlessAbort <= f || (0 < b.fruitlessNudge <= f && !b.fruitlessNudged)))
              || (!Exempt(name) && (0 < b.sameAbort <= n || (0 < b.sameNudge <= n && !b.sameNudged)))
              || (parses && o.isError && o.parseError && 0 < b.parseAbort <= (if name == b.parseTool then b.parseErrors + 1 else 1))
  {
    hide FruitlessNow, SameToolNow, Exempt;
  }
}
