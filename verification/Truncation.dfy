// The two truncation stages of agent/executor.go and agent/executor_run.go: per-tool limits,
// the token budget, and the recovery hints that carry the cache key.
module Truncation {
  import opened Prelude
  import opened Strings
  import Utf8
  import opened CacheSpec
  import opened ToolCache

  datatype Limits = Limits(maxLines: int, maxBytes: int)

  datatype Budget = Budget(hardCapTokens: int, maxFillFraction: real)

  const MIN_CAP := 256

  // The first n lines of a text.
  function FirstLines(content: string, n: nat): string {
    var lines := Split(content, '\n');
    if |lines| > n then Join(lines[..n], '\n') else content
  }

  // A cut at n lines ends right before a newline of the text.
  lemma FirstLinesPrefix(content: string, n: nat)
    requires 0 < n < |Split(content, '\n')|
    ensures var r := FirstLines(content, n); |r| < |content| && r == content[..|r|] && content[|r|] == '\n'
  {
    var lines := Split(content, '\n');
    JoinSplit(content, '\n');
    JoinTake(lines, n, '\n');
  }

  // Stage 1: at most maxLines lines, then at most maxBytes bytes, on a code point boundary.
  function LimitLines(content: string, cfg: Limits): string {
    if cfg.maxLines > 0 then FirstLines(content, cfg.maxLines) else content
  }

  function LimitBytes(content: string, cfg: Limits): string {
    if 0 < cfg.maxBytes < |content| then Utf8.WalkBack(content[..cfg.maxBytes]) else content
  }

  function Stage1(content: string, cfg: Option<Limits>): string {
    if cfg.None? then content else LimitBytes(LimitLines(content, cfg.value), cfg.value)
  }

  // What is kept: so many whole lines, or all there are, and of these the longest valid text within the byte limit.
  lemma Stage1Means(content: string, cfg: Limits)
    ensures var lines, kept := Split(content, '\n'), LimitLines(content, cfg);
            Split(kept, '\n') == if 0 < cfg.maxLines < |lines| then lines[..cfg.maxLines] else lines
    ensures var l, r := LimitLines(content, cfg), Stage1(content, Some(cfg));
            if 0 < cfg.maxBytes < |l| then
              && |r| <= cfg.maxBytes && r == l[..|r|] && Utf8.Valid(r)
              && forall k :: |r| < k <= cfg.maxBytes ==> !Utf8.Valid(l[..k])
            else r == l
  {
    var lines, n := Split(content, '\n'), cfg.maxLines;
    if 0 < n < |lines| {
      SplitLacks(content, '\n');
      SplitJoin(lines[..n], '\n');
    }
    var l := LimitLines(content, cfg);
    if 0 < cfg.maxBytes < |l| {
      var head := l[..cfg.maxBytes];
      assert forall k :: 0 <= k <= cfg.maxBytes ==> head[..k] == l[..k];
    }
  }

  method DropInvalidTail(s: string) returns (r: string)
    ensures r == Utf8.WalkBack(s)
  {
    r := s;
    while r != "" && !Utf8.Valid(r)
      invariant Utf8.WalkBack(r) == Utf8.WalkBack(s)
      decreases |r|
    {
      r := r[..|r| - 1];
    }
  }

  method ApplyPerToolTruncation(content: string, cfg: Option<Limits>) returns (r: string, truncated: bool)
    ensures r == Stage1(content, cfg)
    ensures truncated <==> |r| < |content|
    ensures |r| <= |content| && r == content[..|r|]
  {
    Stage1Prefix(content, cfg);
    if cfg.None? {
      return content, false;
    }
    r, truncated := content, false;
    if cfg.value.maxLines > 0 {
      var lines := Split(content, '\n');
      if |lines| > cfg.value.maxLines {
        FirstLinesPrefix(content, cfg.value.maxLines);
        r := Join(lines[..cfg.value.maxLines], '\n');
        truncated := true;
      }
    }
    if cfg.value.maxBytes > 0 && |r| > cfg.value.maxBytes {
      r := DropInvalidTail(r[..cfg.value.maxBytes]);
      truncated := true;
    }
  }

  lemma LimitLinesPrefix(content: string, cfg: Limits)
    ensures var r := LimitLines(content, cfg); |r| <= |content| && r == content[..|r|]
  {
    assert content[..|content|] == content;
    if cfg.maxLines > 0 && |Split(content, '\n')| > cfg.maxLines {
      FirstLinesPrefix(content, cfg.maxLines);
    }
  }

  lemma Stage1Prefix(content: string, cfg: Option<Limits>)
    ensures var r := Stage1(content, cfg); |r| <= |content| && r == content[..|r|]
  {
    assert content[..|content|] == content;
    if cfg.Some? {
      var l := LimitLines(content, cfg.value);
      LimitLinesPrefix(content, cfg.value);
      var r := LimitBytes(l, cfg.value);
      assert r == l[..|r|];
      assert content[..|l|][..|r|] == content[..|r|];
    }
  }

  // On valid UTF-8 stage 1 keeps a valid prefix and a byte cut loses at most three bytes.
  lemma Stage1Utf8(content: string, cfg: Limits)
    requires Utf8.Valid(content)
    ensures Utf8.Valid(LimitLines(content, cfg)) && Utf8.Valid(Stage1(content, Some(cfg)))
    ensures 0 < cfg.maxBytes < |LimitLines(content, cfg)| ==>
      cfg.maxBytes - 3 <= |Stage1(content, Some(cfg))| <= cfg.maxBytes
  {
    if cfg.maxLines > 0 && |Split(content, '\n')| > cfg.maxLines {
      FirstLinesPrefix(content, cfg.maxLines);
      Utf8.CutBeforeAscii(content, |FirstLines(content, cfg.maxLines)|);
    }
    var l := LimitLines(content, cfg);
    if 0 < cfg.maxBytes < |l| {
      Utf8.WalkBackLoses(l, cfg.maxBytes);
    }
  }

  // ---------------------------------------------------------------------
  // Stage 2
  // ---------------------------------------------------------------------

  // Conversion of a real to an integer, toward zero.
  function Trunc(x: real): int { if x >= 0.0 then x.Floor else -((-x).Floor) }

  function Share(b: Budget, available: int): real { available as real * b.maxFillFraction }

  // None when the budget is off.
  function ComputeBudgetCap(b: Budget, available: int): (r: Option<nat>)
    ensures r.None? <==> b.hardCapTokens <= 0
    ensures r.Some? ==> r.value >= MIN_CAP && (r.value == MIN_CAP || r.value <= b.hardCapTokens)
    // above the minimum, the cap is the hard one or the whole number of tokens in the fraction of what is available
    ensures r.Some? && r.value > MIN_CAP ==> r.value as real <= Share(b, available)
    ensures r.Some? && r.value < b.hardCapTokens ==> Share(b, available) < r.value as real + 1.0
  {
    if b.hardCapTokens <= 0 then None
    else
      var adaptive := Trunc(available as real * b.maxFillFraction);
      var cap := if adaptive < b.hardCapTokens then adaptive else b.hardCapTokens;
      Some(if cap < MIN_CAP then MIN_CAP else cap)
  }

  // Four bytes are one token: only what is longer than the cap by a whole token is cut.
  function WillBudgetTruncate(observation: string, b: Budget, available: int): (cut: bool)
    ensures cut <==> ComputeBudgetCap(b, available).Some? && |observation| >= 4 * (ComputeBudgetCap(b, available).value + 1)
  {
    match ComputeBudgetCap(b, available)
    case None => false
    case Some(cap) => |observation| / 4 > cap && cap * 4 < |observation|
  }

  // What stage 2 keeps of an observation.
  function Kept(observation: string, b: Budget, available: int): string {
    if WillBudgetTruncate(observation, b, available)
    then Utf8.WalkBack(observation[..ComputeBudgetCap(b, available).value * 4])
    else observation
  }

  // willBudgetTruncate predicts exactly whether stage 2 drops bytes; the part kept is a prefix
  // and, on valid UTF-8, ends at most three bytes below the limit.
  lemma BudgetPrediction(observation: string, b: Budget, available: int)
    ensures var k := Kept(observation, b, available);
            && |k| <= |observation| && k == observation[..|k|]
            && (WillBudgetTruncate(observation, b, available) <==> |k| < |observation|)
            && (Utf8.Valid(observation) ==> Utf8.Valid(k))
            && (Utf8.Valid(observation) && |k| < |observation| ==>
                  var limit := ComputeBudgetCap(b, available).value * 4; limit - 3 <= |k| <= limit)
  {
    assert observation[..|observation|] == observation;
    if WillBudgetTruncate(observation, b, available) {
      var limit := ComputeBudgetCap(b, available).value * 4;
      if Utf8.Valid(observation) {
        Utf8.WalkBackLoses(observation, limit);
      }
    }
  }

  function HashHint(key: string): string {
    if key == "" then ""
    else " This output was truncated by token budget. Hash: " + key + ". " + "Use tool_result_read(hash=\"" + key
         + "\", start_line=N, num_lines=M) to read the full cached result in fragments."
  }

  // percent and hint render the figure and the tool-specific advice.
  function Notice(cap: nat, tokens: nat, key: string, percent: string, hint: string): string {
    "\n\n[OUTPUT TRUNCATED: showing ~" + Decimal(cap) + " of ~" + Decimal(tokens) + " tokens (" + percent + "%)."
    + HashHint(key) + (" " + hint + "]")
  }

  function Stage2(observation: string, b: Budget, available: int, key: string, percent: string, hint: string): string {
    if WillBudgetTruncate(observation, b, available)
    then Kept(observation, b, available)
         + Notice(ComputeBudgetCap(b, available).value, |observation| / 4, key, percent, hint)
    else observation
  }

  method ApplyToolResultBudget(observation: string, b: Budget, available: int, key: string, percent: string,
      hint: string)
    returns (r: string)
    ensures r == Stage2(observation, b, available, key, percent, hint)
  {
    var cap := ComputeBudgetCap(b, available);
    if cap.None? {
      return observation;
    }
    var tokens := |observation| / 4;
    if tokens <= cap.value {
      return observation;
    }
    var charLimit := cap.value * 4;
    if charLimit >= |observation| {
      return observation;
    }
    var kept := DropInvalidTail(observation[..charLimit]);
    r := kept + Notice(cap.value, tokens, key, percent, hint);
  }

  lemma NoticeShowsKey(cap: nat, tokens: nat, key: string, percent: string, hint: string)
    requires key != ""
    ensures Contains(Notice(cap, tokens, key, percent, hint), key)
  {
    var a := "\n\n[OUTPUT TRUNCATED: showing ~" + Decimal(cap) + " of ~" + Decimal(tokens) + " tokens (" + percent + "%).";
    var lead := " This output was truncated by token budget. Hash: ";
    var tail := ". " + "Use tool_result_read(hash=\"" + key + "\", start_line=N, num_lines=M) to read the full cached result in fragments.";
    assert HashHint(key) == lead + key + tail;
    var z := " " + hint + "]";
    assert Notice(cap, tokens, key, percent, hint) == (a + lead) + key + (tail + z);
    ContainsMiddle(a + lead, key, tail + z);
  }

  // ---------------------------------------------------------------------
  // Recovery nudges
  // ---------------------------------------------------------------------

  function FragmentationNudge(key: string, toolName: string, maxSlice: int): string {
    (if maxSlice == 0
     then "\n\n[This output was truncated to the configured byte limit for '" + toolName + "'. "
     else "\n\n[This output was truncated to " + Decimal(maxSlice) + " lines for '" + toolName + "'. ")
    + "The full result is cached with hash: " + key
    + (". Use tool_result_read(hash=\"" + key + "\", start_line=1, num_lines=N) to read fragments. num_lines must not exceed "
       + (if maxSlice == 0 then "2000" else Decimal(maxSlice)) + ".]")
  }

  function FileBackedNudge(key: string): string {
    "\n\n[File content cached with hash: " + key
    + (". Use tool_result_read(hash=\"" + key + "\", start_line=N, num_lines=M) to read additional fragments.]")
  }

  lemma NudgesShowKey(key: string, toolName: string, maxSlice: int)
    ensures Contains(FragmentationNudge(key, toolName, maxSlice), key) && Contains(FileBackedNudge(key), key)
    ensures FragmentationNudge(key, toolName, maxSlice) != "" && FileBackedNudge(key) != ""
  {
    var lead := (if maxSlice == 0
       then "\n\n[This output was truncated to the configured byte limit for '" + toolName + "'. "
       else "\n\n[This output was truncated to " + Decimal(maxSlice) + " lines for '" + toolName + "'. ")
      + "The full result is cached with hash: ";
    var rest := ". Use tool_result_read(hash=\"" + key + "\", start_line=1, num_lines=N) to read fragments. num_lines must not exceed "
       + (if maxSlice == 0 then "2000" else Decimal(maxSlice)) + ".]";
    assert FragmentationNudge(key, toolName, maxSlice) == lead + key + rest;
    ContainsMiddle(lead, key, rest);
    ContainsMiddle("\n\n[File content cached with hash: ", key,
      ". Use tool_result_read(hash=\"" + key + "\", start_line=N, num_lines=M) to read additional fragments.]");
  }

  lemma ContainsWider(a: string, s: string, b: string, p: string)
    requires Contains(s, p)
    ensures Contains(a + s + b, p)
  {
    var i: nat :| OccursAt(s, p, i);
    var t := a + s + b;
    assert t[|a| + i..|a| + i + |p|] == s[i..i + |p|];
    assert OccursAt(t, p, |a| + i);
  }

  // ---------------------------------------------------------------------
  // processToolResult
  // ---------------------------------------------------------------------

  // The part of the executor that post-processes one tool result.
  class ResultPipeline {
    const toolCache: ToolResultCache?
    const nonCacheable: set<string>
    const perTool: map<string, Limits>
    const budget: Budget

    constructor (toolCache: ToolResultCache?, nonCacheable: set<string>, perTool: map<string, Limits>, budget: Budget)
      ensures this.toolCache == toolCache && this.nonCacheable == nonCacheable
      ensures this.perTool == perTool && this.budget == budget
    {
      this.toolCache, this.nonCacheable, this.perTool, this.budget := toolCache, nonCacheable, perTool, budget;
    }

    function LimitsOf(toolName: string): Option<Limits> {
      if toolName in perTool then Some(perTool[toolName]) else None
    }

    function MaxSliceHint(toolName: string): int {
      if toolName in perTool then perTool[toolName].maxLines else 0
    }

    // Some byte of the observation is missing from what the model sees.
    ghost predicate Drops(observation: string, toolName: string, available: int) {
      var s := Stage1(observation, LimitsOf(toolName));
      |s| < |observation| || WillBudgetTruncate(s, budget, available)
    }

    // The text returned is what both stages keep, followed only by notes.
    ghost predicate Renders(out: string, observation: string, toolName: string, available: int) {
      var kept := Kept(Stage1(observation, LimitsOf(toolName)), budget, available);
      |kept| <= |out| && out[..|kept|] == kept
    }

    // A lookup under the key finds an entry exactly while it has not expired; and it brings back the full
    // result exactly if, moreover, no twin was in the table before.
    ghost predicate Recovers(key: string, before: Cache, toolName: string, fullResult: string, m: Meta, now: int)
      requires toolCache != null
      reads toolCache
    {
      var full := FullHash(toolCache.sha, toolName, fullResult, m);
      && key != "" && key in toolCache.entries && toolCache.entries[key].hash == full
      && (forall later :: Get(toolCache.Contents(), key, later).1.Some? <==> !Lapsed(before, full, m, now, later))
      && (Clear(before, toolCache.sha, toolName, Described(fullResult, m)) ==>
            forall later :: BringsBack(toolCache.Contents(), key, later, toolName, fullResult, m)
                            <==> !Lapsed(before, full, m, now, later) && !Twin(before, toolName, fullResult, m))
    }

    // Both stages for one result. Whenever bytes are dropped while a cache is installed, the
    // returned key is not empty, shows in the text, and brings back the full result.
    method ProcessToolResult(observation: string, fullResult: string, toolName: string, m: Meta,
                             available: int, now: int, percent: string, hint: string)
      returns (out: string, key: string)
      requires toolCache != null ==> toolCache.Valid() && AllGenuine(toolCache.Contents(), toolCache.sha)
      modifies toolCache
      ensures toolCache != null ==> toolCache.Valid() && AllGenuine(toolCache.Contents(), toolCache.sha)
      ensures Renders(out, observation, toolName, available)
      ensures toolCache != null && Drops(observation, toolName, available) ==> key != "" && Contains(out, key)
      ensures toolCache != null && key != "" ==> Recovers(key, old(toolCache.Contents()), toolName, fullResult, m, now)
      ensures toolCache == null ==> key == ""
      // cached at once, or only because something is dropped; always as the full result
      ensures toolCache != null ==> (key != "" <==> toolName !in nonCacheable || Drops(observation, toolName, available))
      ensures toolCache != null && key != "" ==>
        (toolCache.Contents(), key) == CacheSpec.Store(old(toolCache.Contents()), toolCache.sha, toolName, fullResult, m, now)
      ensures toolCache != null && key == "" ==> toolCache.Contents() == old(toolCache.Contents())
      ensures !Drops(observation, toolName, available) && (key == "" || !m.fileBacked) ==> out == observation
    {
      hide Stage1, Stage2, Kept, Contains, FragmentationNudge, FileBackedNudge, Inv, AllGenuine, WillBudgetTruncate, Recovers, CacheSpec.Store;
      var cfg := LimitsOf(toolName);
      var text, wasTruncated := ApplyPerToolTruncation(observation, cfg);
      key := "";
      var nudge := "";
      if toolCache != null {
        if toolName !in nonCacheable {
          key := StoreFull(toolName, fullResult, m, now);
          NudgesShowKey(key, toolName, MaxSliceHint(toolName));
          if wasTruncated {
            nudge := FragmentationNudge(key, toolName, MaxSliceHint(toolName));
          } else if m.fileBacked {
            nudge := FileBackedNudge(key);
          }
        } else {
          var stage2 := WillBudgetTruncate(text, budget, available);
          if wasTruncated || stage2 {
            key := StoreFull(toolName, fullResult, m, now);
            NudgesShowKey(key, toolName, MaxSliceHint(toolName));
            if wasTruncated {
              nudge := FragmentationNudge(key, toolName, MaxSliceHint(toolName));
            }
          }
        }
      }
      var budgetKey := if nudge != "" then "" else key;
      var cut := ApplyToolResultBudget(text, budget, available, budgetKey, percent, hint);
      out := cut + nudge;
      BudgetPrediction(text, budget, available);
      RenderShowsKey(text, budget, available, key, nudge, budgetKey, percent, hint);
      Stage1Whole(observation, cfg);
    }

    method StoreFull(toolName: string, fullResult: string, m: Meta, now: int) returns (key: string)
      requires toolCache != null && toolCache.Valid() && AllGenuine(toolCache.Contents(), toolCache.sha)
      modifies toolCache
      ensures toolCache.Valid() && AllGenuine(toolCache.Contents(), toolCache.sha)
      ensures key != "" && Recovers(key, old(toolCache.Contents()), toolName, fullResult, m, now)
      ensures (toolCache.Contents(), key) == CacheSpec.Store(old(toolCache.Contents()), toolCache.sha, toolName, fullResult, m, now)
    {
      hide Inv, AllGenuine, CacheSpec.Store, CacheSpec.Get, BringsBack, Lapsed, Twin, Clear, FullHash, Described;
      ghost var c, issued, sha := toolCache.Contents(), toolCache.issued, toolCache.sha;
      StoreThenGet(c, issued, sha, toolName, fullResult, m, now, now);
      StoreGenuine(c, sha, toolName, fullResult, m, now);
      forall later {
        FoundIff(c, issued, sha, toolName, fullResult, m, now, later);
      }
      if Clear(c, sha, toolName, Described(fullResult, m)) {
        forall later {
          RecoveredIff(c, issued, sha, toolName, fullResult, m, now, later);
        }
      }
      key := toolCache.Store(toolName, fullResult, m, now);
      KeyNotEmpty(toolCache.Contents(), toolCache.issued, key);
    }
  }

  lemma KeyNotEmpty(c: Cache, issued: Issued, key: string)
    requires Inv(c, issued) && key in issued
    ensures key != ""
  {
    assert KeyShape(key, issued[key]);
  }

  lemma Stage1Whole(content: string, cfg: Option<Limits>)
    ensures |Stage1(content, cfg)| == |content| ==> Stage1(content, cfg) == content
  {
    Stage1Prefix(content, cfg);
  }

  // The stage-2 text plus a nudge shows the key whenever it was cut or nudged.
  lemma RenderShowsKey(text: string, b: Budget, available: int, key: string, nudge: string, budgetKey: string,
      percent: string, hint: string)
    requires budgetKey == if nudge != "" then "" else key
    requires nudge != "" ==> Contains(nudge, key)
    ensures var out := Stage2(text, b, available, budgetKey, percent, hint) + nudge;
            && (key != "" && (nudge != "" || WillBudgetTruncate(text, b, available)) ==> Contains(out, key))
            && (!WillBudgetTruncate(text, b, available) ==> out == text + nudge)
            && |Kept(text, b, available)| <= |out| && out[..|Kept(text, b, available)|] == Kept(text, b, available)
  {
    var cut := Stage2(text, b, available, budgetKey, percent, hint);
    if nudge != "" {
      ContainsWider(cut, nudge, "", key);
      assert cut + nudge + "" == cut + nudge;
    } else if key != "" && WillBudgetTruncate(text, b, available) {
      var cap := ComputeBudgetCap(b, available).value;
      NoticeShowsKey(cap, |text| / 4, key, percent, hint);
      ContainsWider(Kept(text, b, available), Notice(cap, |text| / 4, key, percent, hint), "", key);
      assert Kept(text, b, available) + Notice(cap, |text| / 4, key, percent, hint) + "" == cut + nudge;
    }
  }
}
