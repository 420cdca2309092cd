// The trajectory of an executor run and the ledger kept beside it: agent/executor.go:340-372,
// agent/executor_run.go:260-310, agent/verify_on_edit.go:60-76.
module ExecutorSpec {
  import opened Prelude

  datatype Call = Call(name: string, input: string)

  // What a dispatched tool came back with.
  datatype Outcome =
    | Result(isError: bool, marker: bool, length: nat, parseError: bool)
    | PauseSignal | Timeout | ContextEnd | Infrastructure

  // A human's answer to a tool call.
  datatype Decision = Allow(input: string) | Reject | HandlerError

  // What happens to a call: the repeat breaker stops it, it is a finish, the human decides, the tool runs.
  datatype Event =
    | Tripped(call: Call) | Finishing(call: Call)
    | Decided(call: Call, d: Decision) | Ran(call: Call, input: string, o: Outcome)

  // The calls of one response, what happened to them, and, when none of them broke it off, the steps they left.
  datatype Heard = Heard(calls: seq<Call>, events: seq<Event>, whole: bool, steps: seq<Step>, group: nat)

  // One recorded step; a nudge has no tool name. `rejected` says that the observation starts with
  // the marker of a rejected call.
  datatype Step = Step(name: string, input: string, isError: bool, rejected: bool, group: nat)

  const NUDGE: Step := Step("", "", false, false, 0)

  const MUTATING: set<string> := {"write_file", "edit_file", "create_directory", "delete_file", "delete_directory"}

  const EXEMPT: set<string> := {
    "write_file", "edit_file", "create_directory", "delete_file", "delete_directory",
    "update_checklist", "set_step_status", "store_fact"}

  const EDITS: set<string> := {"write_file", "edit_file"}

  predicate Exempt(name: string) { name in EXEMPT }

  // isSuccessfulMutationStep
  predicate Mutates(s: Step) { s.name in MUTATING && !s.rejected && !s.isError }

  // A successful call of a file-edit tool.
  predicate EditsFile(s: Step) { s.name in EDITS && !s.isError }

  function Tally(b: bool): nat { if b then 1 else 0 }

  function CountMutations(steps: seq<Step>): nat {
    if steps == [] then 0 else CountMutations(steps[..|steps| - 1]) + Tally(Mutates(steps[|steps| - 1]))
  }

  function CountEdits(steps: seq<Step>): nat {
    if steps == [] then 0 else CountEdits(steps[..|steps| - 1]) + Tally(EditsFile(steps[|steps| - 1]))
  }

  lemma CountSnoc(steps: seq<Step>, s: Step)
    ensures CountMutations(steps + [s]) == CountMutations(steps) + Tally(Mutates(s))
    ensures CountEdits(steps + [s]) == CountEdits(steps) + Tally(EditsFile(s))
  {
    assert (steps + [s])[..|steps|] == steps;
  }

  lemma {:induction false} CountedMutation(steps: seq<Step>)
    ensures CountMutations(steps) > 0 <==> exists i :: 0 <= i < |steps| && Mutates(steps[i])
  {
    hide Mutates;
    if steps != [] {
      var n := |steps| - 1;
      CountedMutation(steps[..n]);
      if exists i :: 0 <= i < |steps| && Mutates(steps[i]) {
        var i :| 0 <= i < |steps| && Mutates(steps[i]);
        assert i < n ==> Mutates(steps[..n][i]);
      }
    }
  }

  // Every mutating tool is exempt from the breakers that look at results.
  lemma MutatingExempt()
    ensures EDITS <= MUTATING <= EXEMPT && "" !in EXEMPT && "finish" !in EXEMPT && "batch" !in EXEMPT
  {
  }

  // ---------------------------------------------------------------------
  // Response groups
  // ---------------------------------------------------------------------

  predicate GroupsAtMost(steps: seq<Step>, max: nat) { forall i :: 0 <= i < |steps| ==> steps[i].group <= max }

  predicate GroupsBelow(steps: seq<Step>, g: nat) { forall i :: 0 <= i < |steps| ==> steps[i].group < g }

  // Steps i and j come from one response and enclose no foreign step.
  ghost predicate OneBlock(steps: seq<Step>, owner: seq<nat>, i: nat, j: nat)
    requires i <= j < |steps| == |owner|
  {
    owner[i] == owner[j] && forall k :: i <= k <= j ==> steps[k].group == steps[i].group
  }

  // Equal groups above the base mean one contiguous block of one response.
  ghost predicate Blocks(steps: seq<Step>, owner: seq<nat>, base: nat) {
    && |owner| == |steps|
    && forall i, j :: 0 <= i < j < |steps| && steps[i].group == steps[j].group && steps[i].group > base ==> OneBlock(steps, owner, i, j)
  }

  // The steps from start on are those of response r, all in group g, which is new.
  ghost predicate OpenGroup(steps: seq<Step>, owner: seq<nat>, start: nat, g: nat, r: nat) {
    && start <= |steps| == |owner|
    && (forall k :: start <= k < |steps| ==> steps[k].group == g && owner[k] == r)
    && (g > 0 ==> forall k :: 0 <= k < start ==> steps[k].group < g)
  }

  lemma NudgeKeepsBlocks(steps: seq<Step>, owner: seq<nat>, base: nat, s: Step, r: nat)
    requires Blocks(steps, owner, base) && s.group == 0
    ensures Blocks(steps + [s], owner + [r], base)
  {
    forall i, j | 0 <= i < j < |steps| + 1 && (steps + [s])[i].group == (steps + [s])[j].group && (steps + [s])[i].group > base
      ensures OneBlock(steps + [s], owner + [r], i, j)
    {
      assert OneBlock(steps, owner, i, j);
    }
  }

  lemma GroupKeepsBlocks(steps: seq<Step>, owner: seq<nat>, base: nat, start: nat, s: Step, r: nat)
    requires Blocks(steps, owner, base) && OpenGroup(steps, owner, start, s.group, r)
    ensures Blocks(steps + [s], owner + [r], base) && OpenGroup(steps + [s], owner + [r], start, s.group, r)
  {
    var after, own := steps + [s], owner + [r];
    forall i, j | 0 <= i < j < |after| && after[i].group == after[j].group && after[i].group > base
      ensures OneBlock(after, own, i, j)
    {
      if j < |steps| {
        assert OneBlock(steps, owner, i, j);
      }
    }
  }

  // ---------------------------------------------------------------------
  // The ledger
  // ---------------------------------------------------------------------

  // seeds, base: the resumed steps and a bound on the groups among them; mutations, edits: successful
  // dispatches seen; verified: the edits seen at the last verification that came back; checks: verifications per response;
  // owner: the response each step came from; calls: calls of the model; granted: iterations
  // granted; faults: the steps in which the world failed; abandoned: the verification of the latest edits was given up;
  // events: what happened to the calls of the current response; past: the responses heard before.
  datatype Ledger = Ledger(
    seeds: seq<Step>, base: nat, mutations: nat, edits: nat, verified: nat,
    checks: seq<nat>, owner: seq<nat>, calls: nat, granted: nat, faults: seq<int>,
    abandoned: bool, events: seq<Event>, past: seq<Heard>)

  // What was dispatched and not recorded yet.
  datatype Owed = Owed(mutations: nat, edits: nat)

  const NOTHING: Owed := Owed(0, 0)

  function Owe(s: Step): Owed { Owed(Tally(Mutates(s)), Tally(EditsFile(s))) }

  // The recorded successes are exactly the successful dispatches, up to what is owed.
  ghost predicate Counted(steps: seq<Step>, led: Ledger, owed: Owed) {
    && led.seeds <= steps
    && led.mutations == CountMutations(steps[|led.seeds|..]) + owed.mutations
    && led.edits == CountEdits(steps[|led.seeds|..]) + owed.edits
  }

  // A verification is pending exactly when an edit succeeded after the last one; an abandoned one is pending no more,
  // and its edits stay unverified.
  predicate Debounced(led: Ledger, pending: bool, verifier: bool, unseen: nat) {
    && led.verified + unseen <= led.edits
    && if led.abandoned then verifier && !pending && led.edits > led.verified
       else if verifier then pending <==> led.edits - unseen > led.verified
       else !pending
  }

  predicate AtMostOnce(checks: seq<nat>) { forall r :: 0 <= r < |checks| ==> checks[r] <= 1 }

  // The current response was not verified yet, and no verification was abandoned.
  predicate Quiet(led: Ledger) { led.checks != [] && led.checks[|led.checks| - 1] == 0 && !led.abandoned }

  lemma RecordCounted(steps: seq<Step>, led: Ledger, s: Step, owner: seq<nat>)
    requires Counted(steps, led, Owe(s))
    ensures Counted(steps + [s], led.(owner := owner), NOTHING)
  {
    hide Mutates, EditsFile, CountMutations, CountEdits;
    CountSnoc(steps[|led.seeds|..], s);
    assert (steps + [s])[|led.seeds|..] == steps[|led.seeds|..] + [s];
  }

  lemma InertStep(s: Step)
    requires s.isError || s.name !in MUTATING
    ensures Owe(s) == NOTHING
  {
    MutatingExempt();
  }

  lemma GroupsSnoc(steps: seq<Step>, s: Step, max: nat)
    requires GroupsAtMost(steps, max) && s.group <= max
    ensures GroupsAtMost(steps + [s], max)
  {
  }

  predicate Productive(name: string) { name != "" && name != "finish" && name != "update_checklist" }

  function CountProductive(steps: seq<Step>): nat {
    if steps == [] then 0 else CountProductive(steps[..|steps| - 1]) + Tally(Productive(steps[|steps| - 1].name))
  }

  predicate HasChecklistUpdate(steps: seq<Step>) {
    exists i :: 0 <= i < |steps| && steps[i].name == "update_checklist" && !steps[i].isError
  }

  ghost predicate HasMutation(steps: seq<Step>) { exists i :: 0 <= i < |steps| && Mutates(steps[i]) }

  // Every step behind the seeds is standalone or carries a group above the base.
  predicate FreshGroups(steps: seq<Step>, seeds: nat, base: nat) {
    forall i :: seeds <= i < |steps| ==> steps[i].group == 0 || steps[i].group > base
  }

  lemma LooseCounted(steps: seq<Step>, led: Ledger, s: Step, owed: Owed, owner: seq<nat>)
    requires Counted(steps, led, owed) && Owe(s) == NOTHING
    ensures Counted(steps + [s], led.(owner := owner), owed)
  {
    hide Mutates, EditsFile, CountMutations, CountEdits;
    CountSnoc(steps[|led.seeds|..], s);
    assert (steps + [s])[|led.seeds|..] == steps[|led.seeds|..] + [s];
  }

  lemma FreshSnoc(steps: seq<Step>, s: Step, seeds: nat, base: nat)
    requires FreshGroups(steps, seeds, base) && (s.group == 0 || s.group > base)
    ensures FreshGroups(steps + [s], seeds, base)
  {
  }

  // A group above the counter opens behind everything recorded.
  lemma OpensGroup(steps: seq<Step>, owner: seq<nat>, max: nat, g: nat, r: nat)
    requires GroupsAtMost(steps, max) && |owner| == |steps| && (g == 0 || g > max)
    ensures OpenGroup(steps, owner, |steps|, g, r)
  {
  }

  // Resumed steps belong to no response of this run.
  function NoOwners(n: nat): (r: seq<nat>)
    ensures |r| == n
  {
    seq(n, i => 0)
  }

  // A resumed trajectory alone: no group of it lies above the base.
  lemma SeedsSettled(steps: seq<Step>, base: nat)
    requires GroupsAtMost(steps, base)
    ensures Blocks(steps, NoOwners(|steps|), base) && FreshGroups(steps, |steps|, base)
    ensures CountMutations(steps[|steps|..]) == 0 && CountEdits(steps[|steps|..]) == 0
  {
  }

  // Productive calls behind the last successful checklist update.
  function SinceChecklist(steps: seq<Step>): nat {
    if steps == [] then 0
    else
      var s := steps[|steps| - 1];
      if s.name == "update_checklist" && !s.isError then 0
      else SinceChecklist(steps[..|steps| - 1]) + Tally(Productive(s.name))
  }

  // A nudge neither updates a checklist nor makes it stale.
  lemma NudgeNoProgress(steps: seq<Step>)
    ensures HasChecklistUpdate(steps + [NUDGE]) <==> HasChecklistUpdate(steps)
    ensures SinceChecklist(steps + [NUDGE]) == SinceChecklist(steps)
  {
    assert (steps + [NUDGE])[..|steps|] == steps;
    if HasChecklistUpdate(steps) {
      var i :| 0 <= i < |steps| && steps[i].name == "update_checklist" && !steps[i].isError;
      assert (steps + [NUDGE])[i] == steps[i];
    }
  }

  lemma {:induction false} CountConcat(a: seq<Step>, b: seq<Step>)
    ensures CountMutations(a + b) == CountMutations(a) + CountMutations(b)
  {
    hide Mutates;
    if b == [] {
      assert a + b == a;
    } else {
      var n := |b| - 1;
      assert a + b == a + b[..n] + [b[n]];
      CountConcat(a, b[..n]);
      CountSnoc(a + b[..n], b[n]);
    }
  }

  // ---------------------------------------------------------------------
  // What becomes of a call
  // ---------------------------------------------------------------------

  type Parser = string -> Option<seq<Call>>

  // The input a call runs with: the human's, when not empty.
  function Effective(call: Call, modified: string): string { if |modified| > 0 then modified else call.input }

  // Allowed, and run with the effective input.
  predicate AllowedRun(call: Call, evs: seq<Event>) {
    && |evs| == 2 && evs[0].Decided? && evs[0].call == call && evs[0].d.Allow?
    && evs[1].Ran? && evs[1].call == call && evs[1].input == Effective(call, evs[0].d.input)
  }

  function StepOf(call: Call, isError: bool, rejected: bool, group: nat): Step {
    Step(call.name, call.input, isError, rejected, group)
  }

  // A call that left its one step: rejected and not run, or allowed, run and recorded. Inside a batch, a nested batch
  // is an error without further ado, and so are a broken handler and a broken tool.
  predicate LeafServed(call: Call, evs: seq<Event>, step: Step, group: nat, batched: bool) {
    && call.name != "finish"
    && if call.name == "batch" then batched && evs == [] && step == StepOf(call, true, false, group)
       else
         || (evs == [Decided(call, Reject)] && step == StepOf(call, true, true, group))
         || (AllowedRun(call, evs) && evs[1].o.Result? && step == StepOf(call, evs[1].o.isError, evs[1].o.marker, group))
         || (batched && step == StepOf(call, true, false, group)
             && (evs == [Decided(call, HandlerError)] || (AllowedRun(call, evs) && evs[1].o.Infrastructure?)))
  }

  // A call that broke the response off: as a finish, by the breaker before it was decided, by a broken handler, or
  // behind the run.
  predicate LeafBroken(call: Call, evs: seq<Event>) {
    if call.name == "finish" then evs == [Finishing(call)]
    else evs == [Tripped(call)] || evs == [Decided(call, HandlerError)] || AllowedRun(call, evs)
  }

  // The calls of a batch, one after the other, each with one step.
  ghost predicate BatchServed(calls: seq<Call>, evs: seq<Event>, steps: seq<Step>, group: nat) {
    && |steps| == |calls|
    && if calls == [] then evs == []
       else
         var n := |calls| - 1;
         exists i :: 0 <= i <= |evs| && BatchServed(calls[..n], evs[..i], steps[..n], group)
                     && LeafServed(calls[n], evs[i..], steps[n], group, true)
  }

  ghost predicate BatchBroken(calls: seq<Call>, evs: seq<Event>, group: nat) {
    exists k, i, steps :: 0 <= k < |calls| && 0 <= i <= |evs| && BatchServed(calls[..k], evs[..i], steps, group)
                          && LeafBroken(calls[k], evs[i..])
  }

  // The calls a batch holds; none when it does not parse.
  function Inside(call: Call, parse: Parser): seq<Call> {
    match parse(call.input) case None => [] case Some(calls) => calls
  }

  ghost predicate CallServed(call: Call, parse: Parser, evs: seq<Event>, steps: seq<Step>, group: nat) {
    if call.name == "batch" then
      if Inside(call, parse) == [] then evs == [] && steps == [StepOf(call, true, false, group)]
      else BatchServed(Inside(call, parse), evs, steps, group)
    else |steps| == 1 && LeafServed(call, evs, steps[0], group, false)
  }

  ghost predicate CallBroken(call: Call, parse: Parser, evs: seq<Event>, group: nat) {
    if call.name == "batch" then BatchBroken(Inside(call, parse), evs, group) else LeafBroken(call, evs)
  }

  // All calls of a response, in order.
  ghost predicate Served(calls: seq<Call>, parse: Parser, evs: seq<Event>, steps: seq<Step>, group: nat) {
    if calls == [] then evs == [] && steps == []
    else
      var n := |calls| - 1;
      exists i, j :: 0 <= i <= |evs| && 0 <= j <= |steps| && Served(calls[..n], parse, evs[..i], steps[..j], group)
                     && CallServed(calls[n], parse, evs[i..], steps[j..], group)
  }

  // The calls up to one that broke the response off.
  ghost predicate BrokenOff(calls: seq<Call>, parse: Parser, evs: seq<Event>, group: nat) {
    exists k, i, steps :: 0 <= k < |calls| && 0 <= i <= |evs| && Served(calls[..k], parse, evs[..i], steps, group)
                          && CallBroken(calls[k], parse, evs[i..], group)
  }

  lemma LeafStopped(call: Call)
    ensures LeafBroken(call, [if call.name == "finish" then Finishing(call) else Tripped(call)])
  {
  }

  lemma LeafDecided(call: Call, group: nat, batched: bool)
    requires call.name != "finish"
    ensures call.name == "batch" && batched ==> LeafServed(call, [], StepOf(call, true, false, group), group, batched)
    ensures call.name != "batch" ==> LeafServed(call, [Decided(call, Reject)], StepOf(call, true, true, group), group, batched)
    ensures call.name != "batch" && batched ==>
      LeafServed(call, [Decided(call, HandlerError)], StepOf(call, true, false, group), group, batched)
    ensures LeafBroken(call, [Decided(call, HandlerError)]) && call.name != "finish"
  {
  }

  lemma LeafRan(call: Call, modified: string, o: Outcome, group: nat, batched: bool)
    requires call.name != "finish" && call.name != "batch"
    ensures var evs := [Decided(call, Allow(modified)), Ran(call, Effective(call, modified), o)];
            && LeafBroken(call, evs)
            && (o.Result? ==> LeafServed(call, evs, StepOf(call, o.isError, o.marker, group), group, batched))
            && (o.Infrastructure? && batched ==> LeafServed(call, evs, StepOf(call, true, false, group), group, batched))
  {
  }

  lemma NoneServed(parse: Parser, group: nat)
    ensures Served([], parse, [], [], group) && BatchServed([], [], [], group)
  {
  }

  lemma ServedSnoc(calls: seq<Call>, parse: Parser, evs: seq<Event>, steps: seq<Step>, group: nat, call: Call,
                   more: seq<Event>, news: seq<Step>)
    requires Served(calls, parse, evs, steps, group)
    ensures CallServed(call, parse, more, news, group) ==> Served(calls + [call], parse, evs + more, steps + news, group)
    ensures CallBroken(call, parse, more, group) ==>
      forall rest: seq<Call> :: BrokenOff(calls + [call] + rest, parse, evs + more, group)
  {
    hide CallServed, CallBroken;
    var all, e, s := calls + [call], evs + more, steps + news;
    assert all[..|calls|] == calls && all[|calls|] == call;
    assert e[..|evs|] == evs && e[|evs|..] == more && s[..|steps|] == steps && s[|steps|..] == news;
    forall rest: seq<Call> | CallBroken(call, parse, more, group) ensures BrokenOff(all + rest, parse, e, group) {
      assert (all + rest)[..|calls|] == calls && (all + rest)[|calls|] == call;
    }
  }

  lemma BatchSnoc(calls: seq<Call>, evs: seq<Event>, steps: seq<Step>, group: nat, call: Call, more: seq<Event>, step: Step)
    requires BatchServed(calls, evs, steps, group)
    ensures LeafServed(call, more, step, group, true) ==> BatchServed(calls + [call], evs + more, steps + [step], group)
    ensures LeafBroken(call, more) ==> forall rest: seq<Call> :: BatchBroken(calls + [call] + rest, evs + more, group)
  {
    hide LeafServed, LeafBroken;
    var all, e, s := calls + [call], evs + more, steps + [step];
    assert all[..|calls|] == calls && all[|calls|] == call;
    assert e[..|evs|] == evs && e[|evs|..] == more && s[..|steps|] == steps && s[|steps|] == step;
    forall rest: seq<Call> | LeafBroken(call, more) ensures BatchBroken(all + rest, e, group) {
      assert (all + rest)[..|calls|] == calls && (all + rest)[|calls|] == call;
    }
  }

  // ---------------------------------------------------------------------
  // What follows for a response
  // ---------------------------------------------------------------------

  // The account of a response: its calls were all served, or one of them broke it off.
  ghost predicate Accounted(h: Heard, parse: Parser) {
    if h.whole then Served(h.calls, parse, h.events, h.steps, h.group) else BrokenOff(h.calls, parse, h.events, h.group)
  }

  // Every response is accounted for, or was cut off by the output limit: then nothing happened to its calls.
  ghost predicate AllAccounted(past: seq<Heard>, parse: Parser) {
    forall k :: 0 <= k < |past| ==> Accounted(past[k], parse) || past[k].events == []
  }

  lemma NothingAsked(parse: Parser)
    ensures Accounted(Heard([], [], true, [], 0), parse)
  {
    NoneServed(parse, 0);
  }

  lemma CallsAccounted(calls: seq<Call>, parse: Parser, evs: seq<Event>, steps: seq<Step>, group: nat, whole: bool)
    requires if whole then Served(calls, parse, evs, steps, group) else BrokenOff(calls, parse, evs, group)
    ensures Accounted(Heard(calls, evs, whole, steps, group), parse)
  {
    hide Served, BrokenOff;
  }

  lemma OneMoreAccount(past: seq<Heard>, now: seq<Heard>, parse: Parser)
    requires AllAccounted(past, parse) && |now| == |past| + 1 && now[..|past|] == past
    requires Accounted(now[|past|], parse) || now[|past|].events == []
    ensures AllAccounted(now, parse)
  {
    hide Accounted;
    assert forall k :: 0 <= k < |past| ==> now[k] == past[k];
  }

  // The calls of a response with batches taken apart; a batch that holds none stands for itself.
  function Leaves(calls: seq<Call>, parse: Parser): seq<Call> {
    if calls == [] then []
    else
      var call := calls[|calls| - 1];
      Leaves(calls[..|calls| - 1], parse) + if call.name == "batch" && Inside(call, parse) != [] then Inside(call, parse) else [call]
  }

  // Whatever ran was one of the calls, had just been allowed, and ran with the human's input or its own.
  ghost predicate Lawful(evs: seq<Event>, calls: seq<Call>) {
    forall k :: 0 <= k < |evs| ==>
      && evs[k].call in calls
      && (evs[k].Ran? ==> k > 0 && AllowedRun(evs[k].call, evs[k - 1..k + 1]))
  }

  lemma LawfulConcat(a: seq<Event>, b: seq<Event>, calls: seq<Call>, more: seq<Call>)
    requires Lawful(a, calls) && Lawful(b, more)
    ensures Lawful(a + b, calls + more)
  {
    hide AllowedRun;
    var e := a + b;
    forall k | 0 <= k < |e|
      ensures e[k].call in calls + more && (e[k].Ran? ==> k > 0 && AllowedRun(e[k].call, e[k - 1..k + 1]))
    {
      if k < |a| {
        assert e[k] == a[k];
        if a[k].Ran? { assert e[k - 1..k + 1] == a[k - 1..k + 1]; }
      } else {
        assert e[k] == b[k - |a|];
        if b[k - |a|].Ran? { assert e[k - 1..k + 1] == b[k - |a| - 1..k - |a| + 1]; }
      }
    }
  }

  lemma LeafLawful(call: Call, evs: seq<Event>)
    ensures LeafBroken(call, evs) ==> Lawful(evs, [call])
    ensures forall step, group, batched :: LeafServed(call, evs, step, group, batched) ==>
      Lawful(evs, [call]) && step.name == call.name && step.input == call.input && step.group == group
  {
    assert AllowedRun(call, evs) ==> evs[0..2] == evs;
  }

  lemma {:induction false} BatchLawful(calls: seq<Call>, evs: seq<Event>, steps: seq<Step>, group: nat)
    requires BatchServed(calls, evs, steps, group)
    ensures Lawful(evs, calls) && OneStepEach(calls, steps, group)
  {
    hide LeafServed, LeafBroken, Lawful;
    if calls == [] {
      NothingLawful(calls);
    } else {
      var n := |calls| - 1;
      var i :| 0 <= i <= |evs| && BatchServed(calls[..n], evs[..i], steps[..n], group) && LeafServed(calls[n], evs[i..], steps[n], group, true);
      BatchLawful(calls[..n], evs[..i], steps[..n], group);
      LeafLawful(calls[n], evs[i..]);
      LawfulConcat(evs[..i], evs[i..], calls[..n], [calls[n]]);
      assert evs[..i] + evs[i..] == evs && calls[..n] + [calls[n]] == calls;
    }
  }

  lemma NothingLawful(calls: seq<Call>)
    ensures Lawful([], calls)
  {
  }

  // One step for every call, in order, each in the group of the response.
  ghost predicate OneStepEach(calls: seq<Call>, steps: seq<Step>, group: nat) {
    && |steps| == |calls|
    && forall k :: 0 <= k < |calls| ==> steps[k].name == calls[k].name && steps[k].input == calls[k].input && steps[k].group == group
  }

  lemma CallLawful(call: Call, parse: Parser, evs: seq<Event>, steps: seq<Step>, group: nat)
    ensures CallServed(call, parse, evs, steps, group) ==> Lawful(evs, Leaves([call], parse)) && OneStepEach(Leaves([call], parse), steps, group)
    ensures CallBroken(call, parse, evs, group) ==> Lawful(evs, Leaves([call], parse))
  {
    hide LeafServed, LeafBroken, Lawful, BatchServed, BatchBroken;
    assert [call][..0] == [] && Leaves([], parse) == [];
    var inside := Inside(call, parse);
    assert [] + inside == inside && [] + [call] == [call];
    assert Leaves([call], parse) == if call.name == "batch" && inside != [] then inside else [call];
    NothingLawful([call]);
    LeafLawful(call, evs);
    if call.name == "batch" && inside != [] {
      if BatchServed(inside, evs, steps, group) {
        BatchLawful(inside, evs, steps, group);
      }
    }
    if call.name == "batch" && BatchBroken(inside, evs, group) {
      BrokenBatchLawful(inside, evs, group);
    }
  }

  lemma BrokenBatchLawful(calls: seq<Call>, evs: seq<Event>, group: nat)
    requires BatchBroken(calls, evs, group)
    ensures calls != [] && Lawful(evs, calls)
  {
    hide BatchServed, LeafBroken, LeafServed;
    var k, i, steps :| 0 <= k < |calls| && 0 <= i <= |evs| && BatchServed(calls[..k], evs[..i], steps, group) && LeafBroken(calls[k], evs[i..]);
    BatchLawful(calls[..k], evs[..i], steps, group);
    LeafLawful(calls[k], evs[i..]);
    LawfulConcat(evs[..i], evs[i..], calls[..k], [calls[k]]);
    assert evs[..i] + evs[i..] == evs;
    assert forall c :: c in calls[..k] + [calls[k]] ==> c in calls;
  }

  lemma {:induction false} LeavesConcat(a: seq<Call>, b: seq<Call>, parse: Parser)
    ensures Leaves(a + b, parse) == Leaves(a, parse) + Leaves(b, parse)
  {
    hide Inside;
    if b == [] {
      assert a + b == a;
    } else {
      assert (a + b)[..|a + b| - 1] == a + b[..|b| - 1];
      LeavesConcat(a, b[..|b| - 1], parse);
    }
  }

  lemma StepsConcat(calls: seq<Call>, steps: seq<Step>, more: seq<Call>, news: seq<Step>, group: nat)
    requires OneStepEach(calls, steps, group) && OneStepEach(more, news, group)
    ensures OneStepEach(calls + more, steps + news, group)
  {
  }

  // Calls that were all served left one step each, in order.
  lemma {:induction false} ServedMeans(calls: seq<Call>, parse: Parser, evs: seq<Event>, steps: seq<Step>, group: nat)
    requires Served(calls, parse, evs, steps, group)
    ensures Lawful(evs, Leaves(calls, parse)) && OneStepEach(Leaves(calls, parse), steps, group)
  {
    hide CallServed, Lawful, Leaves, OneStepEach;
    if calls == [] {
      NothingLawful(Leaves(calls, parse));
      LeavesNone(parse);
      NoSteps(group);
    } else {
      var n := |calls| - 1;
      var i, j :| 0 <= i <= |evs| && 0 <= j <= |steps| && Served(calls[..n], parse, evs[..i], steps[..j], group)
                  && CallServed(calls[n], parse, evs[i..], steps[j..], group);
      ServedMeans(calls[..n], parse, evs[..i], steps[..j], group);
      CallLawful(calls[n], parse, evs[i..], steps[j..], group);
      LeavesConcat(calls[..n], [calls[n]], parse);
      LawfulConcat(evs[..i], evs[i..], Leaves(calls[..n], parse), Leaves([calls[n]], parse));
      StepsConcat(Leaves(calls[..n], parse), steps[..j], Leaves([calls[n]], parse), steps[j..], group);
      assert evs[..i] + evs[i..] == evs && steps[..j] + steps[j..] == steps && calls[..n] + [calls[n]] == calls;
    }
  }

  lemma NoSteps(group: nat)
    ensures OneStepEach([], [], group)
  {
  }

  lemma LeavesNone(parse: Parser)
    ensures Leaves([], parse) == []
  {
  }

  // In every response: whatever ran was one of its calls and had just been allowed; so a rejected call never runs.
  lemma AccountedMeans(h: Heard, parse: Parser)
    requires Accounted(h, parse)
    ensures Lawful(h.events, Leaves(h.calls, parse))
    ensures h.whole ==> OneStepEach(Leaves(h.calls, parse), h.steps, h.group)
  {
    hide Served, Lawful, Leaves, CallBroken;
    if h.whole {
      ServedMeans(h.calls, parse, h.events, h.steps, h.group);
    } else {
      BrokenLawful(h.calls, parse, h.events, h.group);
    }
  }

  lemma BrokenLawful(calls: seq<Call>, parse: Parser, evs: seq<Event>, group: nat)
    requires BrokenOff(calls, parse, evs, group)
    ensures Lawful(evs, Leaves(calls, parse))
  {
    hide Served, Leaves, CallBroken, AllowedRun;
    var k, i, steps :| 0 <= k < |calls| && 0 <= i <= |evs| && Served(calls[..k], parse, evs[..i], steps, group)
                       && CallBroken(calls[k], parse, evs[i..], group);
    ServedMeans(calls[..k], parse, evs[..i], steps, group);
    CallLawful(calls[k], parse, evs[i..], [], group);
    LawfulConcat(evs[..i], evs[i..], Leaves(calls[..k], parse), Leaves([calls[k]], parse));
    LeavesConcat(calls[..k], [calls[k]], parse);
    LeavesConcat(calls[..k] + [calls[k]], calls[k + 1..], parse);
    assert evs[..i] + evs[i..] == evs && calls[..k] + [calls[k]] + calls[k + 1..] == calls;
  }
}
