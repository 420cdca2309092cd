// The executor's run loop: agent/executor.go:1402-1614, agent/executor_run.go and agent/verify_on_edit.go:146-255.
// Model answers, tool outcomes, the user's decisions and the verifier are arbitrary.
module Executor {
  import opened Prelude
  import opened ExecutorSpec
  import opened Breakers

  datatype StopReason = EndTurn | MaxTokens | OtherStop

  datatype Response = Response(calls: seq<Call>, stop: StopReason)

  // A human's answer at a limit.
  datatype LimitAnswer = AllowOnce | AllowMore | AllowAlways | Deny | CallbackError

  predicate Denied(answer: LimitAnswer) { answer.Deny? || answer.CallbackError? }

  datatype Ending = InlineFinish | ImplicitFinish | StoppedByTool | Aborted | PausedInCall(abandoned: bool) | PausedBetween | LimitReached

  datatype ExecResult = ExecResult(steps: seq<Step>, finished: bool, ending: Ending)

  datatype Flow = Next | Break | Return(result: ExecResult) | Fail

  datatype RunOutcome = Returned(result: ExecResult) | Failed | StillRunning

  datatype Config = Config(
    maxSteps: int, mutationRequired: bool, verifier: bool, suppressAssistantEvents: bool,
    checklistGate: bool, checklistAvailable: bool, hasTools: bool, stopTools: set<string>,
    compact: string -> string, parseBatch: string -> Option<seq<Call>>)

  // Gates that nudge once.
  datatype Gates = Gates(finishNudged: bool, mutationNudged: bool, checklistMissing: bool, checklistUnchecked: bool)

  class Executor {
    const cfg: Config
    var breaker: Breaker
    var gates: Gates
    var responseGroupCounter: nat
    // one run
    var stepNum: int
    var allSteps: seq<Step>
    var effectiveMaxSteps: int
    var unlimitedSteps: bool
    var circuitBreakerTriggered: bool
    var pendingVerifyEdit: bool
    var responseGroup: nat
    var finishResult: Option<ExecResult>
    var implicitFinishNudges: nat
    var syntaxNudges: nat
    var wrapUpNudged: bool
    var staleNudges: nat
    var reactiveCompact: bool
    // beside the run
    ghost var led: Ledger
    ghost var start: nat    // where the steps of the current response begin

    constructor (cfg: Config, breaker: Breaker)
      ensures this.cfg == cfg && this.breaker == breaker
    {
      this.cfg := cfg;
      this.breaker := breaker;
      gates := Gates(false, false, false, false);
      responseGroupCounter := 0;
      stepNum, allSteps, effectiveMaxSteps, unlimitedSteps := 1, [], cfg.maxSteps, false;
      circuitBreakerTriggered, pendingVerifyEdit, responseGroup, finishResult := false, false, 0, None;
      implicitFinishNudges, syntaxNudges, wrapUpNudged, staleNudges, reactiveCompact := 0, 0, false, 0, false;
      led := Ledger([], 0, 0, 0, 0, [], [], 0, 0, [], false, [], []);
      start := 0;
    }

    // The books balance, up to what was dispatched and is not recorded yet, and the edits the hook has not seen.
    ghost predicate Books(owed: Owed, unseen: nat)
      reads `allSteps, `led, `responseGroupCounter, `pendingVerifyEdit, `effectiveMaxSteps
    {
      && Blocks(allSteps, led.owner, led.base)
      && GroupsAtMost(allSteps, responseGroupCounter) && led.base <= responseGroupCounter
      && FreshGroups(allSteps, |led.seeds|, led.base)
      && Counted(allSteps, led, owed)
      && Debounced(led, pendingVerifyEdit, cfg.verifier, unseen)
      && AtMostOnce(led.checks)
      && effectiveMaxSteps == cfg.maxSteps + led.granted
    }

    ghost predicate Settled()
      reads `allSteps, `led, `responseGroupCounter, `pendingVerifyEdit, `effectiveMaxSteps
    {
      Books(NOTHING, 0)
    }

    // Every step of the current response so far carries its group, and that group is new.
    ghost predicate InGroup()
      reads `allSteps, `led, `responseGroup, `start, `responseGroupCounter
    {
      && OpenGroup(allSteps, led.owner, start, responseGroup, |led.checks|)
      && responseGroup <= responseGroupCounter && (responseGroup == 0 || responseGroup > led.base)
    }

    // ---------------------------------------------------------------------
    // Appending steps
    // ---------------------------------------------------------------------

    // A step outside every group, of no consequence for the counts.
    method AppendLoose(s: Step, ghost owed: Owed, ghost unseen: nat)
      requires Books(owed, unseen) && s.group == 0 && Owe(s) == NOTHING
      modifies `allSteps, `led
      ensures Books(owed, unseen) && allSteps == old(allSteps) + [s]
      ensures led == old(led).(owner := old(led.owner) + [|old(led.checks)|])
    {
      hide Blocks, Counted, Owe;
      NudgeKeepsBlocks(allSteps, led.owner, led.base, s, |led.checks|);
      LooseCounted(allSteps, led, s, owed, led.owner + [|led.checks|]);
      GroupsSnoc(allSteps, s, responseGroupCounter);
      FreshSnoc(allSteps, s, |led.seeds|, led.base);
      allSteps := allSteps + [s];
      led := led.(owner := led.owner + [|led.checks|]);
    }

    method Nudge(ghost owed: Owed, ghost unseen: nat)
      requires Books(owed, unseen)
      modifies `allSteps, `led
      ensures Books(owed, unseen) && allSteps == old(allSteps) + [NUDGE]
      ensures led == old(led).(owner := old(led.owner) + [|old(led.checks)|])
    {
      hide Books, Owe;
      InertStep(NUDGE);
      AppendLoose(NUDGE, owed, unseen);
    }

    method Record(s: Step)
      requires Books(Owe(s), 0) && InGroup() && s.group == responseGroup
      modifies `allSteps, `led
      ensures Settled() && InGroup() && allSteps == old(allSteps) + [s]
      ensures led == old(led).(owner := old(led.owner) + [|old(led.checks)|])
    {
      hide Blocks, Counted, OpenGroup, Owe;
      GroupKeepsBlocks(allSteps, led.owner, led.base, start, s, |led.checks|);
      RecordCounted(allSteps, led, s, led.owner + [|led.checks|]);
      GroupsSnoc(allSteps, s, responseGroupCounter);
      FreshSnoc(allSteps, s, |led.seeds|, led.base);
      allSteps := allSteps + [s];
      led := led.(owner := led.owner + [|led.checks|]);
    }

    // A step of the current response whose tool was not run.
    method RecordIntercepted(name: string, input: string, rejected: bool)
      requires Settled() && InGroup()
      modifies `allSteps, `led
      ensures Settled() && InGroup() && allSteps == old(allSteps) + [Step(name, input, true, rejected, responseGroup)]
      ensures led == old(led).(owner := old(led.owner) + [|old(led.checks)|])
    {
      var s := Step(name, input, true, rejected, responseGroup);
      InertStep(s);
      Record(s);
    }

    // ---------------------------------------------------------------------
    // Verification after edits
    // ---------------------------------------------------------------------

    ghost function Checked(l: Ledger): Ledger
      requires l.checks != []
    {
      l.(verified := l.edits, checks := l.checks[|l.checks| - 1 := l.checks[|l.checks| - 1] + 1])
    }

    // Once per response group, behind its last call, when an edit succeeded since the last verification.
    method RunVerifyOnEditHook(toolName: string, isError: bool, lastCallInGroup: bool, ghost owed: Owed)
      requires Books(owed, Tally(toolName in EDITS && !isError)) && Quiet(led)
      modifies `pendingVerifyEdit, `led
      ensures Books(owed, 0) && (lastCallInGroup ==> !pendingVerifyEdit)
      ensures led == old(led) || (lastCallInGroup && led == Checked(old(led)))
    {
      hide Blocks, Counted;
      if !cfg.verifier {
        return;
      }
      if toolName in EDITS && !isError {
        pendingVerifyEdit := true;
      }
      if !lastCallInGroup || !pendingVerifyEdit {
        return;
      }
      pendingVerifyEdit := false;
      CheckedCounted(owed);
      led := Checked(led);
    }

    lemma CheckedCounted(owed: Owed)
      requires led.checks != []
      ensures Counted(allSteps, led, owed) ==> Counted(allSteps, Checked(led), owed)
    {
    }

    // The flush at a finish that bypasses the hook, and at a pause.
    method FlushPendingVerifyOnEdit(ghost owed: Owed)
      requires Books(owed, 0) && Quiet(led)
      modifies `pendingVerifyEdit, `led
      ensures Books(owed, 0) && !pendingVerifyEdit
      ensures led == old(led) || led == Checked(old(led))
    {
      hide Blocks, Counted;
      if !cfg.verifier || !pendingVerifyEdit {
        return;
      }
      pendingVerifyEdit := false;
      CheckedCounted(owed);
      led := Checked(led);
    }

    // The flush at a pause in mid-call. A verifier that does not return within its budget is abandoned: a note says
    // so, and the edits stay unverified.
    method FlushPendingVerifyOnEditAtCheckpoint() returns (abandoned: bool)
      requires Settled() && Quiet(led)
      modifies `pendingVerifyEdit, `led, `allSteps
      ensures Settled() && !pendingVerifyEdit && SameResponse(old(led)) && led.abandoned == abandoned && SameEvents(old(led))
      ensures abandoned ==> old(pendingVerifyEdit) && allSteps == old(allSteps) + [NUDGE]
      ensures cfg.verifier ==> if abandoned then led.verified == old(led.verified) < led.edits else led.verified == led.edits
    {
      hide Blocks, Counted;
      var was := pendingVerifyEdit;
      var late: bool := *;
      if cfg.verifier && was && late {
        AbandonVerification();
        return true;
      }
      FlushPendingVerifyOnEdit(NOTHING);
      var noted: bool := *;
      if was && noted {
        Nudge(NOTHING, 0);
      }
      return false;
    }

    method AbandonVerification()
      requires Settled() && Quiet(led) && cfg.verifier && pendingVerifyEdit
      modifies `pendingVerifyEdit, `led, `allSteps
      ensures Settled() && !pendingVerifyEdit && SameResponse(old(led)) && led.abandoned && SameEvents(old(led))
      ensures led.verified == old(led.verified) < led.edits == old(led.edits) && allSteps == old(allSteps) + [NUDGE]
    {
      hide Blocks, Counted;
      pendingVerifyEdit := false;
      StartedCounted();
      led := Started(led);
      Nudge(NOTHING, 0);
    }

    // A verification begun and given up.
    ghost function Started(l: Ledger): Ledger
      requires l.checks != []
    {
      l.(abandoned := true, checks := l.checks[|l.checks| - 1 := l.checks[|l.checks| - 1] + 1])
    }

    lemma StartedCounted()
      requires led.checks != []
      ensures Counted(allSteps, led, NOTHING) ==> Counted(allSteps, Started(led), NOTHING)
    {
    }

    // ---------------------------------------------------------------------
    // The world
    // ---------------------------------------------------------------------

    // Something outside failed, or the caller cancelled.
    method Fault()
      requires Settled()
      modifies `led
      ensures Settled() && led == old(led).(faults := old(led.faults) + [stepNum])
    {
      hide Blocks, CountMutations, CountEdits;
      led := led.(faults := led.faults + [stepNum]);
    }

    // hitl.OnStepLimit
    method OnStepLimit() returns (answer: LimitAnswer) {
      answer := *;
    }

    // hitl.OnToolCall: the decision enters the books.
    method OnToolCall(call: Call) returns (d: Decision)
      requires Settled()
      modifies `led
      ensures Settled() && led == old(led).(events := old(led.events) + [Decided(call, d)])
    {
      d := *;
      Note(Decided(call, d));
    }

    ghost method Note(e: Event)
      requires Settled()
      modifies `led
      ensures Settled() && led == old(led).(events := old(led.events) + [e])
    {
      hide Blocks;
      led := led.(events := led.events + [e]);
    }

    // The tool runs, and that enters the books: a success before anything is recorded.
    method ExecuteToolCall(call: Call, input: string) returns (o: Outcome)
      requires Settled()
      modifies `led
      ensures var l := old(led).(events := old(led.events) + [Ran(call, input, o)]);
              led == if o.Result? then Dispatched(l, call.name, o)
                     else if o.PauseSignal? then l else l.(faults := l.faults + [stepNum])
      ensures if o.Result? then Books(Owe(StepOf(call, o.isError, o.marker, 0)), Tally(call.name in EDITS && !o.isError)) else Settled()
    {
      hide Books;
      o := *;
      Note(Ran(call, input, o));
      if o.Result? {
        Observe(call, o);
      } else if !o.PauseSignal? {
        Fault();
      }
    }

    // A result enters the books.
    ghost method Observe(call: Call, o: Outcome)
      requires Settled() && o.Result?
      modifies `led
      ensures led == Dispatched(old(led), call.name, o)
      ensures Books(Owe(StepOf(call, o.isError, o.marker, 0)), Tally(call.name in EDITS && !o.isError))
    {
      hide Blocks;
      led := Dispatched(led, call.name, o);
    }

    ghost function Dispatched(l: Ledger, name: string, o: Outcome): Ledger
      requires o.Result?
    {
      l.(mutations := l.mutations + Tally(Mutates(Step(name, "", o.isError, o.marker, 0))),
         edits := l.edits + Tally(EditsFile(Step(name, "", o.isError, o.marker, 0))))
    }

    // ---------------------------------------------------------------------
    // Circuit breakers
    // ---------------------------------------------------------------------

    // A call the breakers may stop has nothing outstanding.
    ghost predicate Stoppable(name: string, owed: Owed, unseen: nat) {
      !Exempt(name) ==> owed == NOTHING && unseen == 0
    }

    // Stopped by a breaker: the run goes on to the next response, or ends unfinished.
    ghost predicate Stopped(flow: Flow)
      reads `allSteps
    {
      flow == Break || flow == Return(ExecResult(allSteps, false, Aborted))
    }

    // The user is asked: a reprieve nudges and flags an interception; it grants no iteration.
    method AskForReprieve() returns (answer: LimitAnswer)
      requires Settled()
      modifies `allSteps, `led, `circuitBreakerTriggered
      ensures Settled() && led == old(led).(owner := led.owner)
      ensures circuitBreakerTriggered == (old(circuitBreakerTriggered) || !Denied(answer))
      ensures allSteps == old(allSteps) + if Denied(answer) then [] else [NUDGE]
    {
      answer := OnStepLimit();
      match answer {
        case AllowOnce | AllowMore | AllowAlways =>
          Nudge(NOTHING, 0);
          circuitBreakerTriggered := true;
        case Deny | CallbackError =>
      }
    }

    ghost predicate Reprieved(asked: Option<LimitAnswer>) { asked.Some? && !Denied(asked.value) }

    // What is left of an abort threshold: "always" turns it off.
    ghost function Off(asked: Option<LimitAnswer>, threshold: nat, off: nat): nat {
      if asked == Some(AllowAlways) then off else threshold
    }

    // A denial ends the run exactly when no interception was flagged before; everything else goes on with the
    // next response.
    ghost predicate Judged(flow: Flow, asked: Option<LimitAnswer>, flagged: bool) {
      && (flow.Return? <==> asked.Some? && Denied(asked.value) && !flagged)
      && (asked.Some? && !flow.Return? ==> flow == Break)
    }

    function KeyOf(action: Call): string { CallKey(action, cfg.compact) }

    method CountRepeat(key: string)
      modifies `breaker
      ensures breaker == old(breaker).(
        repeats := RepeatsNow(old(breaker), key), lastKey := key, lastError := key == old(breaker).lastKey && old(breaker).lastError)
    {
      if key == breaker.lastKey {
        breaker := breaker.(repeats := breaker.repeats + 1);
      } else {
        breaker := breaker.(repeats := 1, lastKey := key, lastError := false);
      }
    }

    method StopRepeats(action: Call) returns (flow: Flow, ghost asked: Option<LimitAnswer>)
      requires Settled()
      modifies `breaker, `allSteps, `led, `circuitBreakerTriggered
      ensures Settled() && led == old(led).(owner := led.owner, events := old(led.events) + [Tripped(action)])
      ensures asked.Some? && Stopped(flow) && Judged(flow, asked, old(circuitBreakerTriggered))
      ensures breaker == if Reprieved(asked) then old(breaker).(repeats := 0, repeatAbort := Off(asked, old(breaker).repeatAbort, DISABLED))
                         else old(breaker)
      ensures allSteps == old(allSteps) + (if Denied(asked.value) then [] else [NUDGE])
      ensures circuitBreakerTriggered == (old(circuitBreakerTriggered) || !Denied(asked.value))
    {
      hide Books;
      var answer := AskForReprieve();
      asked := Some(answer);
      if !Denied(answer) {
        breaker := breaker.(repeats := 0);
      }
      if answer.AllowAlways? {
        breaker := breaker.(repeatAbort := DISABLED);
      }
      Note(Tripped(action));
      if circuitBreakerTriggered {
        return Break, asked;
      }
      return Return(ExecResult(allSteps, false, Aborted)), asked;
    }

    // Repeated identical calls, before the tool runs; the thresholds drop by one after an error.
    method CheckRepeatIdenticalTool(action: Call) returns (flow: Flow, ghost asked: Option<LimitAnswer>)
      requires Settled() && InGroup()
      modifies `breaker, `allSteps, `led, `circuitBreakerTriggered
      ensures Settled() && led == old(led).(owner := led.owner, events := led.events)
      ensures led.events == old(led.events) + if flow.Next? then [] else [Tripped(action)]
      ensures flow.Next? <==> !RepeatTrips(old(breaker), KeyOf(action))
      ensures if flow.Next? then allSteps == old(allSteps) && led == old(led) && circuitBreakerTriggered == old(circuitBreakerTriggered)
              else Stopped(flow)
      ensures var key := KeyOf(action);
              var lower := key == old(breaker).lastKey && old(breaker).lastError;
              var n := RepeatsNow(old(breaker), key);
              var mid := old(breaker).(repeats := n, lastKey := key, lastError := lower);
              && (asked.Some? <==> At(Lowered(old(breaker).repeatAbort, lower), n))
              && (flow.Next? <==> asked.None? && !At(Lowered(old(breaker).repeatNudge, lower), n))
              && (!flow.Next? && asked.None? ==>
                    circuitBreakerTriggered && allSteps == old(allSteps) + [StepOf(action, true, false, responseGroup)])
              && breaker == if Reprieved(asked) then mid.(repeats := 0, repeatAbort := Off(asked, mid.repeatAbort, DISABLED)) else mid
      ensures Judged(flow, asked, old(circuitBreakerTriggered))
      ensures asked.Some? ==>
        && allSteps == old(allSteps) + (if Denied(asked.value) then [] else [NUDGE])
        && circuitBreakerTriggered == (old(circuitBreakerTriggered) || !Denied(asked.value))
    {
      hide Books, OpenGroup, RepeatsNow, Owe;
      assert led.events + [] == led.events;
      asked := None;
      var key := KeyOf(action);
      CountRepeat(key);
      var nudgeThreshold := breaker.repeatNudge;
      var abortThreshold := breaker.repeatAbort;
      if breaker.lastError {
        if breaker.repeatNudge > 0 {
          nudgeThreshold := breaker.repeatNudge - 1;
        }
        if breaker.repeatAbort > 0 {
          abortThreshold := breaker.repeatAbort - 1;
        }
      }
      if abortThreshold > 0 && breaker.repeats >= abortThreshold {
        flow, asked := StopRepeats(action);
        return;
      }
      if nudgeThreshold > 0 && breaker.repeats >= nudgeThreshold {
        RecordIntercepted(action.name, action.input, false);
        Note(Tripped(action));
        circuitBreakerTriggered := true;
        return Break, asked;
      }
      return Next, asked;
    }

    method CountFruitless(isError: bool, length: nat)
      modifies `breaker
      ensures breaker == old(breaker).(fruitless := FruitlessNow(old(breaker), isError, length))
    {
      var maxLen := if breaker.fruitlessMaxLen == 0 then 32 else breaker.fruitlessMaxLen;
      if !isError && length <= maxLen {
        breaker := breaker.(fruitless := breaker.fruitless + 1);
      } else if !isError {
        breaker := breaker.(fruitless := 0);
      }
    }

    // Empty or minimal results in a row; exempt tools reset the count.
    method CheckFruitlessResult(name: string, isError: bool, length: nat, ghost owed: Owed,
        ghost unseen: nat) returns (flow: Flow, ghost asked: Option<LimitAnswer>)
      requires Books(owed, unseen) && Stoppable(name, owed, unseen)
      modifies `breaker, `allSteps, `led, `circuitBreakerTriggered
      ensures Books(owed, unseen) && led == old(led).(owner := led.owner)
      ensures if flow.Next? then allSteps == old(allSteps) && led == old(led) && circuitBreakerTriggered == old(circuitBreakerTriggered)
              else !Exempt(name) && Stopped(flow)
      ensures Judged(flow, asked, old(circuitBreakerTriggered))
      ensures asked.Some? ==>
        && allSteps == old(allSteps) + (if Denied(asked.value) then [] else [NUDGE])
        && circuitBreakerTriggered == (old(circuitBreakerTriggered) || !Denied(asked.value))
      ensures Exempt(name) ==> flow == Next && asked.None? && breaker == old(breaker).(fruitless := 0)
      ensures !Exempt(name) ==>
        var n := FruitlessNow(old(breaker), isError, length);
        && (asked.Some? <==> At(old(breaker.fruitlessAbort), n))
        && (flow == Next <==> asked.None? && !(At(old(breaker.fruitlessNudge), n) && !old(breaker.fruitlessNudged)))
        && var mid := old(breaker).(fruitless := n);
           (flow == Break && asked.None? ==> circuitBreakerTriggered && allSteps == old(allSteps) + [NUDGE])
           && breaker == if Reprieved(asked) then mid.(fruitless := 0, fruitlessNudged := false, fruitlessAbort := Off(asked, mid.fruitlessAbort, 0))
                      else mid.(fruitlessNudged := mid.fruitlessNudged || (flow == Break && asked.None?))
    {
      hide Books, Owe, FruitlessNow;
      asked := None;
      if Exempt(name) {
        breaker := breaker.(fruitless := 0);
        return Next, asked;
      }
      CountFruitless(isError, length);
      if breaker.fruitlessAbort > 0 && breaker.fruitless >= breaker.fruitlessAbort {
        var answer := AskForReprieve();
        asked := Some(answer);
        if !Denied(answer) {
          breaker := breaker.(fruitless := 0, fruitlessNudged := false);
        }
        if answer.AllowAlways? {
          breaker := breaker.(fruitlessAbort := 0);
        }
        if circuitBreakerTriggered {
          return Break, asked;
        }
        return Return(ExecResult(allSteps, false, Aborted)), asked;
      }
      if breaker.fruitlessNudge > 0 && breaker.fruitless >= breaker.fruitlessNudge && !breaker.fruitlessNudged {
        breaker := breaker.(fruitlessNudged := true);
        Nudge(owed, unseen);
        circuitBreakerTriggered := true;
        return Break, asked;
      }
      return Next, asked;
    }

    // A success after an error starts afresh.
    method CountSameTool(name: string, isError: bool, length: nat)
      modifies `breaker
      ensures breaker == old(breaker).(
        sameCount := SameToolNow(old(breaker), name, isError, length), sameName := name, sameLen := length, sameError := isError)
    {
      var sizeDelta := if breaker.sizeDelta == 0 then 64 else breaker.sizeDelta;
      var lenDiff := if length < breaker.sameLen then breaker.sameLen - length else length - breaker.sameLen;
      if breaker.sameError && !isError {
        breaker := breaker.(sameCount := 1, sameName := name, sameLen := length);
      } else if name == breaker.sameName && lenDiff <= sizeDelta {
        breaker := breaker.(sameCount := breaker.sameCount + 1, sameLen := length);
      } else {
        breaker := breaker.(sameCount := 1, sameName := name, sameLen := length);
      }
      breaker := breaker.(sameError := isError);
    }

    // The same tool with results of similar size.
    method CheckSameToolRepetition(name: string, isError: bool, length: nat, ghost owed: Owed,
        ghost unseen: nat) returns (flow: Flow, ghost asked: Option<LimitAnswer>)
      requires Books(owed, unseen) && Stoppable(name, owed, unseen)
      modifies `breaker, `allSteps, `led, `circuitBreakerTriggered
      ensures Books(owed, unseen) && led == old(led).(owner := led.owner)
      ensures if flow.Next? then allSteps == old(allSteps) && led == old(led) && circuitBreakerTriggered == old(circuitBreakerTriggered)
              else !Exempt(name) && Stopped(flow)
      ensures Judged(flow, asked, old(circuitBreakerTriggered))
      ensures asked.Some? ==>
        && allSteps == old(allSteps) + (if Denied(asked.value) then [] else [NUDGE])
        && circuitBreakerTriggered == (old(circuitBreakerTriggered) || !Denied(asked.value))
      ensures Exempt(name) ==>
        flow == Next && asked.None? && breaker == old(breaker).(sameCount := 0, sameName := "", sameLen := 0, sameError := false)
      ensures !Exempt(name) ==>
        var n := SameToolNow(old(breaker), name, isError, length);
        && (asked.Some? <==> At(old(breaker.sameAbort), n))
        && (flow == Next <==> asked.None? && !(At(old(breaker.sameNudge), n) && !old(breaker.sameNudged)))
        && var mid := old(breaker).(sameCount := n, sameName := name, sameLen := length, sameError := isError);
           (flow == Break && asked.None? ==> circuitBreakerTriggered && allSteps == old(allSteps) + [NUDGE])
           && breaker == if Reprieved(asked) then mid.(sameCount := 0, sameNudged := false, sameAbort := Off(asked, mid.sameAbort, 0))
                      else mid.(sameNudged := mid.sameNudged || (flow == Break && asked.None?))
    {
      hide Books;
      asked := None;
      if Exempt(name) {
        breaker := breaker.(sameCount := 0, sameName := "", sameLen := 0, sameError := false);
        return Next, asked;
      }
      CountSameTool(name, isError, length);
      if breaker.sameAbort > 0 && breaker.sameCount >= breaker.sameAbort {
        var answer := AskForReprieve();
        asked := Some(answer);
        if !Denied(answer) {
          breaker := breaker.(sameCount := 0, sameNudged := false);
        }
        if answer.AllowAlways? {
          breaker := breaker.(sameAbort := 0);
        }
        if circuitBreakerTriggered {
          return Break, asked;
        }
        return Return(ExecResult(allSteps, false, Aborted)), asked;
      }
      if breaker.sameNudge > 0 && breaker.sameCount >= breaker.sameNudge && !breaker.sameNudged {
        breaker := breaker.(sameNudged := true);
        Nudge(owed, unseen);
        circuitBreakerTriggered := true;
        return Break, asked;
      }
      return Next, asked;
    }

    // Inputs the tool could not parse; only a failed call is ever stopped here.
    method CheckParseErrors(name: string, isError: bool, parseError: bool, ghost owed: Owed,
        ghost unseen: nat) returns (flow: Flow, ghost asked: Option<LimitAnswer>)
      requires Books(owed, unseen) && (isError ==> owed == NOTHING && unseen == 0)
      modifies `breaker, `allSteps, `led, `circuitBreakerTriggered
      ensures Books(owed, unseen) && led == old(led).(owner := led.owner)
      ensures if flow.Next? then allSteps == old(allSteps) && led == old(led) && circuitBreakerTriggered == old(circuitBreakerTriggered)
              else Stopped(flow)
      ensures Judged(flow, asked, old(circuitBreakerTriggered))
      ensures asked.Some? ==>
        && allSteps == old(allSteps) + (if Denied(asked.value) then [] else [NUDGE])
        && circuitBreakerTriggered == (old(circuitBreakerTriggered) || !Denied(asked.value))
      ensures asked.Some? <==> isError && parseError && At(old(breaker.parseAbort), ParseErrorsNow(old(breaker), name))
      ensures flow == Next <==> asked.None?
      ensures isError && parseError ==>
        var mid := old(breaker).(parseTool := name, parseErrors := ParseErrorsNow(old(breaker), name));
        breaker == if Reprieved(asked) then mid.(parseErrors := 0, parseAbort := Off(asked, mid.parseAbort, DISABLED)) else mid
      ensures !isError ==> breaker == old(breaker).(parseTool := "", parseErrors := 0)
      ensures isError && !parseError ==> breaker == old(breaker)
    {
      hide Books;
      asked := None;
      if isError && parseError {
        if name == breaker.parseTool {
          breaker := breaker.(parseErrors := breaker.parseErrors + 1);
        } else {
          breaker := breaker.(parseTool := name, parseErrors := 1);
        }
        if breaker.parseAbort > 0 && breaker.parseErrors >= breaker.parseAbort {
          var answer := AskForReprieve();
          asked := Some(answer);
          if !Denied(answer) {
            breaker := breaker.(parseErrors := 0);
          }
          if answer.AllowAlways? {
            breaker := breaker.(parseAbort := DISABLED);
          }
          if circuitBreakerTriggered {
            return Break, asked;
          }
          return Return(ExecResult(allSteps, false, Aborted)), asked;
        }
      } else if !isError {
        breaker := breaker.(parseTool := "", parseErrors := 0);
      }
      return Next, asked;
    }

    // ---------------------------------------------------------------------
    // Ending a run
    // ---------------------------------------------------------------------

    // What a finish that was accepted promises.
    ghost predicate Accepted(r: ExecResult)
      reads `allSteps, `pendingVerifyEdit
    {
      && r.steps == allSteps
      && match r.ending
         case InlineFinish => !pendingVerifyEdit && (cfg.mutationRequired ==> (r.finished <==> HasMutation(allSteps)))
                              && (!cfg.mutationRequired ==> r.finished)
         case StoppedByTool => r.finished
         case _ => false
    }

    method HasMutatingToolExecuted() returns (b: bool)
      ensures b <==> HasMutation(allSteps)
    {
      for i := 0 to |allSteps|
        invariant forall k :: 0 <= k < i ==> !Mutates(allSteps[k])
      {
        if Mutates(allSteps[i]) {
          return true;
        }
      }
      return false;
    }

    method CountProductiveToolCalls() returns (n: nat)
      ensures n == CountProductive(allSteps)
    {
      n := 0;
      for i := 0 to |allSteps|
        invariant n == CountProductive(allSteps[..i])
      {
        assert allSteps[..i + 1][..i] == allSteps[..i];
        if Productive(allSteps[i].name) {
          n := n + 1;
        }
      }
      assert allSteps[..|allSteps|] == allSteps;
    }

    // The finish of a step that had to change something and did not, for the first time.
    ghost predicate MutationDue()
      reads `allSteps, `gates
    {
      cfg.mutationRequired && !HasMutation(allSteps) && !gates.mutationNudged
    }

    // More than two productive calls and no checklist, for the first time.
    predicate ChecklistDue()
      reads `allSteps, `gates
    {
      && cfg.checklistGate && cfg.checklistAvailable && !gates.checklistMissing
      && !HasChecklistUpdate(allSteps) && CountProductive(allSteps) > 2
    }

    predicate UncheckedDue(unchecked: int)
      reads `gates
    {
      cfg.checklistGate && cfg.checklistAvailable && !gates.checklistUnchecked && unchecked > 0
    }

    // The first gate that objects sends the model back with a nudge, each at most once except the guard's.
    // The guard's objection and the number of unchecked items come from outside.
    method FinishGates() returns (passed: bool, ghost guarded: bool, ghost unchecked: int)
      requires Settled()
      modifies `gates, `allSteps, `led
      ensures Settled() && led == old(led).(owner := led.owner)
      ensures if passed then allSteps == old(allSteps) && led == old(led) else allSteps == old(allSteps) + [NUDGE]
      ensures passed <==> !guarded && !old(MutationDue()) && !old(ChecklistDue()) && !old(UncheckedDue(unchecked))
      ensures gates == if passed || guarded then old(gates)
                       else if old(MutationDue()) then old(gates).(mutationNudged := true)
                       else if old(ChecklistDue()) then old(gates).(checklistMissing := true)
                       else old(gates).(checklistUnchecked := true)
    {
      hide Books, HasMutation, HasChecklistUpdate, CountProductive;
      unchecked := 0;
      var objects: bool := *;
      guarded := objects;
      if objects {
        Nudge(NOTHING, 0);
        return false, guarded, unchecked;
      }
      var mutated := HasMutatingToolExecuted();
      if cfg.mutationRequired && !mutated && !gates.mutationNudged {
        gates := gates.(mutationNudged := true);
        Nudge(NOTHING, 0);
        return false, guarded, unchecked;
      }
      if cfg.checklistGate && cfg.checklistAvailable && !HasChecklistUpdate(allSteps) {
        var productive := CountProductiveToolCalls();
        if productive > 2 && !gates.checklistMissing {
          gates := gates.(checklistMissing := true);
          Nudge(NOTHING, 0);
          return false, guarded, unchecked;
        }
      }
      if cfg.checklistGate && cfg.checklistAvailable && !gates.checklistUnchecked {
        var open: int := *;
        unchecked := open;
        if open > 0 {
          gates := gates.(checklistUnchecked := true);
          Nudge(NOTHING, 0);
          return false, guarded, unchecked;
        }
      }
      return true, guarded, unchecked;
    }

    // The inline finish, alone or inside a batch: the gates, the finish step, the pending verification, the verdict.
    method HandleFinishCall(action: Call) returns (ghost guarded: bool, ghost unchecked: int)
      requires Settled() && InGroup() && Quiet(led) && action.name == "finish" && finishResult == None
      modifies `gates, `allSteps, `led, `pendingVerifyEdit, `finishResult
      ensures Settled() && SameResponse(old(led)) && !led.abandoned
      ensures led.events == old(led.events) + [Finishing(action)] && led.past == old(led.past)
      // accepted exactly when no gate objects
      ensures finishResult.Some? <==> !guarded && !old(MutationDue()) && !old(ChecklistDue()) && !old(UncheckedDue(unchecked))
      ensures finishResult.Some? ==> Accepted(finishResult.value) && finishResult.value.ending == InlineFinish
      ensures finishResult.Some? && !finishResult.value.finished ==> old(gates.mutationNudged)
      ensures finishResult.Some? ==> allSteps == old(allSteps) + [Step("finish", action.input, false, false, responseGroup)]
      ensures finishResult.None? ==> allSteps == old(allSteps) + [NUDGE]
    {
      hide Books, OpenGroup, HasMutation, HasChecklistUpdate, CountProductive;
      Note(Finishing(action));
      var passed;
      passed, guarded, unchecked := FinishGates();
      if !passed {
        return;
      }
      StillInGroup(old(led));
      var s := Step("finish", action.input, false, false, responseGroup);
      MutatingExempt();
      InertStep(s);
      FinishStepMutates(allSteps, s);
      Record(s);
      RunVerifyOnEditHook("finish", false, true, NOTHING);
      var mutated := HasMutatingToolExecuted();
      var finished := !cfg.mutationRequired || mutated;
      finishResult := Some(ExecResult(allSteps, finished, InlineFinish));
    }

    // Nothing was decided or run.
    ghost predicate SameEvents(l: Ledger)
      reads `led
    {
      led.events == l.events && led.past == l.past
    }

    // Still the same response, verified at most once more; nothing was granted and no model called.
    ghost predicate SameResponse(l: Ledger)
      reads `led
    {
      && |led.checks| == |l.checks| && led.calls == l.calls && led.granted == l.granted
      && led.base == l.base && led.seeds == l.seeds
      && (l.checks != [] ==> led.checks[..|l.checks| - 1] == l.checks[..|l.checks| - 1])
    }

    lemma StillInGroup(l: Ledger)
      requires OpenGroup(allSteps, l.owner, start, responseGroup, |l.checks|) && responseGroup <= responseGroupCounter
      requires responseGroup == 0 || responseGroup > l.base
      requires led.owner == l.owner && |led.checks| == |l.checks| && led.base == l.base
      ensures InGroup()
    {
    }

    lemma FinishStepMutates(steps: seq<Step>, s: Step)
      requires s.name !in MUTATING
      ensures HasMutation(steps + [s]) <==> HasMutation(steps)
    {
      if HasMutation(steps) {
        var i :| 0 <= i < |steps| && Mutates(steps[i]);
        assert Mutates((steps + [s])[i]);
      }
    }

    // A successful call of a host-designated tool ends the run, unless the guard objects.
    method StopToolTermination(name: string, isError: bool) returns (flow: Flow, ghost guarded: bool)
      requires Settled() && finishResult == None
      modifies `allSteps, `led, `finishResult
      ensures Settled() && led == old(led).(owner := led.owner)
      ensures flow == Next || flow == Break
      ensures flow == Next <==> isError || name !in cfg.stopTools
      ensures flow == Next ==> allSteps == old(allSteps) && led == old(led) && finishResult == None
      ensures finishResult.Some? <==> !isError && name in cfg.stopTools && !guarded
      ensures finishResult.Some? ==> finishResult.value == ExecResult(allSteps, true, StoppedByTool) && allSteps == old(allSteps)
      ensures flow == Break && guarded ==> allSteps == old(allSteps) + [NUDGE]
    {
      guarded := false;
      if isError || name !in cfg.stopTools {
        return Next, guarded;
      }
      var objects: bool := *;
      guarded := objects;
      if objects {
        Nudge(NOTHING, 0);
        return Break, guarded;
      }
      finishResult := Some(ExecResult(allSteps, true, StoppedByTool));
      return Break, guarded;
    }

    // ---------------------------------------------------------------------
    // Tool calls
    // ---------------------------------------------------------------------

    // What a response that does not finish hands back: an abort, or a pause with nothing pending.
    ghost predicate Unfinished(r: ExecResult)
      reads `allSteps, `pendingVerifyEdit
    {
      r.steps == allSteps && !r.finished && (r.ending == Aborted || (r.ending.PausedInCall? && !pendingVerifyEdit))
    }

    // The run pauses although its verifier did not return.
    predicate Abandons(flow: Flow) { flow.Return? && flow.result.ending == PausedInCall(true) }

    // The state after a call of a response whose ledger was l at the call; `last` closes the response.
    ghost predicate Processed(flow: Flow, last: bool, l: Ledger)
      reads `allSteps, `led, `responseGroupCounter, `pendingVerifyEdit, `effectiveMaxSteps, `responseGroup, `start, `finishResult, `stepNum
    {
      && Settled() && SameResponse(l) && led.abandoned == Abandons(flow)
      && match flow
         case Next => InGroup() && finishResult == None && (!last ==> Quiet(led))
         case Break => finishResult.Some? ==> Accepted(finishResult.value)
         case Return(r) => Unfinished(r)
         case Fail => FaultedNow()
    }

    // Recording a result: the verification behind the last call, the step, the stop tool.
    method RecordResult(action: Call, o: Outcome, last: bool) returns (flow: Flow)
      requires o.Result? && InGroup() && Quiet(led) && finishResult == None
      requires Books(Owe(Step(action.name, action.input, o.isError, o.marker, responseGroup)), Tally(action.name in EDITS && !o.isError))
      modifies `allSteps, `led, `pendingVerifyEdit, `finishResult
      ensures Processed(flow, last, old(led)) && (flow == Next || flow == Break)
      ensures flow == Next <==> o.isError || action.name !in cfg.stopTools
      ensures SameEvents(old(led)) && (flow == Next ==> allSteps == old(allSteps) + [StepOf(action, o.isError, o.marker, responseGroup)])
      ensures !last ==> led.edits == old(led.edits) && led.verified == old(led.verified)
    {
      hide Books, OpenGroup, Owe;
      ghost var owed := Owe(Step(action.name, action.input, o.isError, o.marker, responseGroup));
      RunVerifyOnEditHook(action.name, o.isError, last, owed);
      Record(Step(action.name, action.input, o.isError, o.marker, responseGroup));
      ghost var guarded;
      flow, guarded := StopToolTermination(action.name, o.isError);
    }

    // A rejected call is recorded without running; verification an earlier edit left pending still happens.
    method RecordRejected(action: Call, last: bool)
      requires Settled() && InGroup() && Quiet(led) && finishResult == None
      modifies `allSteps, `led, `pendingVerifyEdit, `circuitBreakerTriggered
      ensures Processed(Next, last, old(led)) && circuitBreakerTriggered
      ensures SameEvents(old(led)) && allSteps == old(allSteps) + [StepOf(action, true, true, responseGroup)]
    {
      hide Books, OpenGroup;
      RunVerifyOnEditHook(action.name, true, last, NOTHING);
      RecordIntercepted(action.name, action.input, true);
      circuitBreakerTriggered := true;
    }

    // The breakers that count results.
    method CheckCounts(name: string, o: Outcome, ghost owed: Owed, ghost unseen: nat) returns (flow: Flow)
      requires o.Result? && Books(owed, unseen) && Stoppable(name, owed, unseen)
      modifies `breaker, `allSteps, `led, `circuitBreakerTriggered
      ensures led == old(led).(owner := led.owner)
      ensures if flow.Next? then Books(owed, unseen) && allSteps == old(allSteps) && led == old(led) else Settled() && Stopped(flow)
      ensures flow == Next <==> CountsPass(old(breaker), name, o)
      ensures flow == Next ==> breaker == ResultCounts(old(breaker), name, o)
      ensures breaker.lastError == old(breaker.lastError)
      ensures Exempt(name) ==> flow == Next
      ensures old(circuitBreakerTriggered) ==> circuitBreakerTriggered
    {
      hide Books, At, Exempt, Off;
      ghost var asked;
      flow, asked := CheckFruitlessResult(name, o.isError, o.length, owed, unseen);
      if flow.Next? {
        flow, asked := CheckSameToolRepetition(name, o.isError, o.length, owed, unseen);
      }
    }

    // The breakers that look at a result; a mutating tool passes them all unless it failed to parse its input.
    method CheckResult(name: string, o: Outcome, parses: bool, ghost owed: Owed, ghost unseen: nat) returns (flow: Flow)
      requires o.Result? && Books(owed, unseen) && Stoppable(name, owed, unseen)
      requires o.isError ==> owed == NOTHING && unseen == 0
      modifies `breaker, `allSteps, `led, `circuitBreakerTriggered
      ensures led == old(led).(owner := led.owner)
      ensures if flow.Next? then Books(owed, unseen) && allSteps == old(allSteps) && led == old(led) else Settled() && Stopped(flow)
      ensures flow == Next <==> Passes(old(breaker), name, o, parses)
      ensures flow == Next ==> breaker == CountsAfter(old(breaker), name, o, parses)
      ensures breaker.lastError == old(breaker.lastError)
      ensures Exempt(name) && !o.isError ==> flow == Next
      ensures old(circuitBreakerTriggered) ==> circuitBreakerTriggered
    {
      hide Books, At, Exempt, Off, CountsPass, ResultCounts;
      flow := CheckCounts(name, o, owed, unseen);
      if flow.Next? && parses {
        ParseApart(old(breaker), name, o);
        ghost var asked;
        flow, asked := CheckParseErrors(name, o.isError, o.parseError, owed, unseen);
      }
    }

    lemma ResultStoppable(name: string, input: string, o: Outcome, group: nat)
      requires o.Result?
      ensures var owed := Owe(Step(name, input, o.isError, o.marker, group));
              && Stoppable(name, owed, Tally(name in EDITS && !o.isError))
              && (o.isError ==> owed == NOTHING && Tally(name in EDITS && !o.isError) == 0)
              && owed == Owe(Step(name, input, o.isError, o.marker, 0))
    {
      MutatingExempt();
    }

    // A dispatched call, to its recorded step.
    method FinishDispatch(action: Call, o: Outcome, parses: bool, last: bool) returns (flow: Flow)
      requires o.Result? && InGroup() && Quiet(led) && finishResult == None
      requires Books(Owe(Step(action.name, action.input, o.isError, o.marker, 0)), Tally(action.name in EDITS && !o.isError))
      modifies `breaker, `allSteps, `led, `circuitBreakerTriggered, `pendingVerifyEdit, `finishResult
      ensures Processed(flow, last, old(led)) && (old(circuitBreakerTriggered) ==> circuitBreakerTriggered)
      ensures SameEvents(old(led)) && (flow == Next ==> allSteps == old(allSteps) + [StepOf(action, o.isError, o.marker, responseGroup)])
      // it goes on exactly when no breaker stops it and it is no successful stop tool
      ensures flow == Next <==> GoesOn(old(breaker), cfg.stopTools, action.name, o, parses)
      ensures breaker.lastError == o.isError
      ensures !last ==> led.edits == old(led.edits) && led.verified == old(led.verified)
      ensures Exempt(action.name) && !o.isError && action.name !in cfg.stopTools ==> flow == Next
    {
      hide Books, OpenGroup, Owe;
      breaker := breaker.(lastError := o.isError);
      ResultStoppable(action.name, action.input, o, responseGroup);
      flow := CheckResult(action.name, o, parses,
        Owe(Step(action.name, action.input, o.isError, o.marker, responseGroup)), Tally(action.name in EDITS && !o.isError));
      if flow.Next? {
        StillInGroup(old(led));
        flow := RecordResult(action, o, last);
      }
    }

    // The flag of an interception stays up, and a rejection raises it.
    twostate predicate Flagged(new evs: seq<Event>)
      reads `circuitBreakerTriggered
    {
      (old(circuitBreakerTriggered) || exists k :: 0 <= k < |evs| && evs[k].Decided? && evs[k].d.Reject?) ==> circuitBreakerTriggered
    }

    // evs is what happened to the call; when it did not break the response off, steps is what it left.
    method ProcessSingleToolCall(action: Call, callIdx: nat, n: nat) returns (flow: Flow, ghost evs: seq<Event>, ghost steps: seq<Step>)
      requires Settled() && InGroup() && Quiet(led) && finishResult == None && callIdx < n
      modifies this
      ensures Processed(flow, callIdx == n - 1, old(led)) && SameRun()
      ensures led.events == old(led.events) + evs && led.past == old(led.past) && Flagged(evs)
      ensures if flow.Next? then allSteps == old(allSteps) + steps && CallServed(action, cfg.parseBatch, evs, steps, responseGroup)
              else CallBroken(action, cfg.parseBatch, evs, responseGroup)
    {
      hide Books, OpenGroup, Owe, Accepted, BatchServed, BatchBroken, LeafServed, LeafBroken, AllowedRun;
      var last := callIdx == n - 1;
      if action.name == "batch" {
        flow, evs, steps := ProcessBatchTool(action, callIdx, n);
        return;
      }
      ghost var step;
      flow, evs, step := ProcessLeaf(action, last);
      steps := [step];
    }

    // A call outside any batch.
    method ProcessLeaf(action: Call, last: bool) returns (flow: Flow, ghost evs: seq<Event>, ghost step: Step)
      requires Settled() && InGroup() && Quiet(led) && finishResult == None && action.name != "batch"
      modifies this
      ensures Processed(flow, last, old(led)) && SameRun()
      ensures led.events == old(led.events) + evs && led.past == old(led.past) && Flagged(evs)
      ensures if flow.Next? then allSteps == old(allSteps) + [step] && LeafServed(action, evs, step, responseGroup, false)
              else LeafBroken(action, evs)
      ensures action.name != "finish" ==> (evs == [Tripped(action)] <==> RepeatTrips(old(breaker), KeyOf(action)))
      ensures |evs| == 2 ==>
        evs[1].Ran? && (evs[1].o.Result? ==> (flow == Next <==> GoesOn(old(breaker), cfg.stopTools, action.name, evs[1].o, true)))
    {
      hide GoesOn, Books, OpenGroup, Owe, Accepted, Judged, Off, Lowered, At, RepeatsNow, LeafServed, LeafBroken, AllowedRun, RepeatTrips;
      step := NUDGE;
      LeafStopped(action);
      if action.name == "finish" {
        ghost var guarded, unchecked := HandleFinishCall(action);
        return Break, [Finishing(action)], step;
      }
      ghost var asked;
      flow, asked := CheckRepeatIdenticalTool(action);
      if !flow.Next? {
        return flow, [Tripped(action)], step;
      }
      assert led.events == old(led.events) && allSteps == old(allSteps);
      ghost var b := breaker;
      flow, evs, step := DecideLeaf(action, last);
      if |evs| == 2 {
        GoesOnSame(old(breaker), b, cfg.stopTools, action.name, evs[1].o, true);
      }
    }

    method DecideLeaf(action: Call, last: bool) returns (flow: Flow, ghost evs: seq<Event>, ghost step: Step)
      requires Settled() && InGroup() && Quiet(led) && finishResult == None && action.name != "batch" && action.name != "finish"
      modifies this
      ensures Processed(flow, last, old(led)) && SameRun()
      ensures led.events == old(led.events) + evs && led.past == old(led.past) && Flagged(evs)
      ensures if flow.Next? then allSteps == old(allSteps) + [step] && LeafServed(action, evs, step, responseGroup, false)
              else LeafBroken(action, evs)
      ensures evs != [] && evs[0].Decided?
      ensures |evs| == 2 ==>
        evs[1].Ran? && (evs[1].o.Result? ==> (flow == Next <==> GoesOn(old(breaker), cfg.stopTools, action.name, evs[1].o, true)))
    {
      hide Passes, GoesOn, Books, OpenGroup, Owe, Accepted, LeafServed, LeafBroken, AllowedRun;
      step := NUDGE;
      var input := action.input;
      var decision := OnToolCall(action);
      evs := [Decided(action, decision)];
      match decision {
        case HandlerError =>
          Fault();
          LeafDecided(action, responseGroup, false);
          return Fail, evs, step;
        case Reject =>
          RecordRejected(action, last);
          LeafDecided(action, responseGroup, false);
          return Next, evs, StepOf(action, true, true, responseGroup);
        case Allow(modified) =>
          if |modified| > 0 {
            input := modified;
          }
      }
      ghost var o;
      flow, o := DispatchCall(action, input, last);
      LeafRan(action, decision.input, o, responseGroup, false);
      evs := [Decided(action, decision), Ran(action, input, o)];
      step := if o.Result? then StepOf(action, o.isError, o.marker, responseGroup) else NUDGE;
      assert old(led.events) + [Decided(action, decision)] + [Ran(action, input, o)] == old(led.events) + evs;
    }

    // What was dispatched and noted in between does not matter.
    lemma ProcessedSince(flow: Flow, last: bool, l: Ledger, before: Ledger)
      requires Processed(flow, last, l)
      requires l.checks == before.checks && l.calls == before.calls && l.granted == before.granted && l.base == before.base
      requires l.seeds == before.seeds
      ensures Processed(flow, last, before)
    {
      hide Books, InGroup, Accepted;
    }

    lemma PauseProcessed(abandoned: bool, last: bool, l: Ledger)
      requires Settled() && SameResponse(l) && led.abandoned == abandoned && !pendingVerifyEdit
      ensures Processed(Return(ExecResult(allSteps, false, PausedInCall(abandoned))), last, l)
    {
      hide Books;
    }

    lemma FailProcessed(last: bool, l: Ledger)
      requires Settled() && SameResponse(l) && !led.abandoned && FaultedNow()
      ensures Processed(Fail, last, l)
    {
      hide Books;
    }

    // Running a call; a pause, a cancellation or a broken tool ends the run.
    method DispatchCall(action: Call, input: string, last: bool) returns (flow: Flow, ghost o: Outcome)
      requires Settled() && InGroup() && Quiet(led) && finishResult == None
      modifies this
      ensures Processed(flow, last, old(led)) && SameRun()
      ensures led.events == old(led.events) + [Ran(action, input, o)] && led.past == old(led.past)
      ensures old(circuitBreakerTriggered) ==> circuitBreakerTriggered
      ensures flow.Next? ==> o.Result? && allSteps == old(allSteps) + [StepOf(action, o.isError, o.marker, responseGroup)]
      ensures o.Result? ==> (flow == Next <==> GoesOn(old(breaker), cfg.stopTools, action.name, o, true))
    {
      hide Books, OpenGroup, Owe, Accepted, Passes, GoesOn, Processed;
      var result := ExecuteToolCall(action, input);
      o := result;
      match result {
        case PauseSignal =>
          var abandoned := FlushPendingVerifyOnEditAtCheckpoint();
          PauseProcessed(abandoned, last, old(led));
          return Return(ExecResult(allSteps, false, PausedInCall(abandoned))), o;
        case Timeout | ContextEnd | Infrastructure =>
          FailProcessed(last, old(led));
          return Fail, o;
        case Result(isError, marker, length, parseError) =>
          StillInGroup(old(led));
          ghost var l := led;
          flow := FinishDispatch(action, result, true, last);
          ProcessedSince(flow, last, l, old(led));
      }
    }

    // Nothing of the run's frame moved.
    twostate predicate SameRun()
      reads this
    {
      && stepNum == old(stepNum) && effectiveMaxSteps == old(effectiveMaxSteps) && unlimitedSteps == old(unlimitedSteps)
      && responseGroup == old(responseGroup) && responseGroupCounter == old(responseGroupCounter) && start == old(start)
      && SameNudges()
    }

    twostate predicate SameNudges()
      reads this
    {
      && wrapUpNudged == old(wrapUpNudged) && staleNudges == old(staleNudges) && reactiveCompact == old(reactiveCompact)
      && implicitFinishNudges == old(implicitFinishNudges) && syntaxNudges == old(syntaxNudges)
    }

    // The batch meta-tool runs its sub-calls one after the other through the same pipeline.
    method ProcessBatchTool(action: Call, callIdx: nat, n: nat) returns (flow: Flow, ghost evs: seq<Event>, ghost steps: seq<Step>)
      requires Settled() && InGroup() && Quiet(led) && finishResult == None && callIdx < n && action.name == "batch"
      modifies this
      ensures Processed(flow, callIdx == n - 1, old(led)) && SameRun()
      ensures led.events == old(led.events) + evs && led.past == old(led.past) && Flagged(evs)
      ensures if flow.Next? then allSteps == old(allSteps) + steps && CallServed(action, cfg.parseBatch, evs, steps, responseGroup)
              else CallBroken(action, cfg.parseBatch, evs, responseGroup)
      // a batch that holds no calls reaches no hook
      ensures cfg.parseBatch(action.input) == None || cfg.parseBatch(action.input) == Some([]) ==>
        flow == Next && led == old(led).(owner := led.owner) && pendingVerifyEdit == old(pendingVerifyEdit)
    {
      hide Books, OpenGroup, Owe, Accepted, BatchServed, BatchBroken, LeafServed, LeafBroken;
      evs, steps := [], [];
      assert led.events + [] == led.events && allSteps + [] == allSteps;
      var parsed := cfg.parseBatch(action.input);
      if parsed.None? || parsed.value == [] {
        RecordIntercepted(action.name, action.input, false);
        return Next, [], [StepOf(action, true, false, responseGroup)];
      }
      var calls := parsed.value;
      NoneServed(cfg.parseBatch, responseGroup);
      for sub := 0 to |calls|
        invariant Settled() && InGroup() && finishResult == None && SameRun() && SameResponse(old(led)) && !led.abandoned
        invariant sub < |calls| || callIdx < n - 1 ==> Quiet(led)
        invariant led.events == old(led.events) + evs && led.past == old(led.past) && Flagged(evs)
        invariant allSteps == old(allSteps) + steps && BatchServed(calls[..sub], evs, steps, responseGroup)
      {
        ghost var more, step;
        flow, more, step := ProcessSubCall(calls[sub], sub == |calls| - 1 && callIdx == n - 1);
        BatchSnoc(calls[..sub], evs, steps, responseGroup, calls[sub], more, step);
        assert calls[..sub + 1] == calls[..sub] + [calls[sub]];
        assert calls == calls[..sub] + [calls[sub]] + calls[sub + 1..];
        assert old(led.events) + evs + more == old(led.events) + (evs + more);
        assert old(allSteps) + steps + [step] == old(allSteps) + (steps + [step]);
        evs, steps := evs + more, steps + [step];
        if !flow.Next? {
          return;
        }
      }
      assert calls[..|calls|] == calls;
      return Next, evs, steps;
    }

    method ProcessSubCall(call: Call, last: bool) returns (flow: Flow, ghost evs: seq<Event>, ghost step: Step)
      requires Settled() && InGroup() && Quiet(led) && finishResult == None
      modifies this
      ensures Processed(flow, last, old(led)) && SameRun()
      ensures led.events == old(led.events) + evs && led.past == old(led.past) && Flagged(evs)
      ensures if flow.Next? then allSteps == old(allSteps) + [step] && LeafServed(call, evs, step, responseGroup, true)
              else LeafBroken(call, evs)
      ensures call.name != "finish" && call.name != "batch" ==> (evs == [Tripped(call)] <==> RepeatTrips(old(breaker), KeyOf(call)))
      ensures |evs| == 2 ==> evs[1].Ran? && (evs[1].o.Result? ==> (flow == Next <==> GoesOn(old(breaker), cfg.stopTools, call.name, evs[1].o, false)))
    {
      hide GoesOn, Books, OpenGroup, Owe, Accepted, InGroup, Judged, Off, Lowered, At, RepeatsNow, LeafServed, LeafBroken, AllowedRun, RepeatTrips;
      step := NUDGE;
      LeafStopped(call);
      if call.name == "batch" {
        RecordIntercepted(call.name, call.input, false);
        LeafDecided(call, responseGroup, true);
        assert old(led.events) + [] == old(led.events);
        return Next, [], StepOf(call, true, false, responseGroup);
      }
      if call.name == "finish" {
        ghost var guarded, unchecked := HandleFinishCall(call);
        return Break, [Finishing(call)], step;
      }
      ghost var asked;
      flow, asked := CheckRepeatIdenticalTool(call);
      if !flow.Next? {
        return flow, [Tripped(call)], step;
      }
      assert led.events == old(led.events) && allSteps == old(allSteps);
      ghost var b := breaker;
      flow, evs, step := DecideSubCall(call, last);
      if |evs| == 2 {
        GoesOnSame(old(breaker), b, cfg.stopTools, call.name, evs[1].o, false);
      }
    }

    method DecideSubCall(call: Call, last: bool) returns (flow: Flow, ghost evs: seq<Event>, ghost step: Step)
      requires Settled() && InGroup() && Quiet(led) && finishResult == None && call.name != "batch" && call.name != "finish"
      modifies this
      ensures Processed(flow, last, old(led)) && SameRun()
      ensures led.events == old(led.events) + evs && led.past == old(led.past) && Flagged(evs)
      ensures if flow.Next? then allSteps == old(allSteps) + [step] && LeafServed(call, evs, step, responseGroup, true)
              else LeafBroken(call, evs)
      ensures evs != [] && evs[0].Decided?
      ensures |evs| == 2 ==> evs[1].Ran? && (evs[1].o.Result? ==> (flow == Next <==> GoesOn(old(breaker), cfg.stopTools, call.name, evs[1].o, false)))
    {
      hide Passes, GoesOn, Books, OpenGroup, Owe, Accepted, LeafServed, LeafBroken, AllowedRun;
      var input := call.input;
      var decision := OnToolCall(call);
      evs := [Decided(call, decision)];
      LeafDecided(call, responseGroup, true);
      if decision.HandlerError? {
        flow := RecordFailure(call, last);
        step := StepOf(call, true, false, responseGroup);
        return;
      }
      if decision.Reject? {
        RecordRejected(call, last);
        return Next, evs, StepOf(call, true, true, responseGroup);
      }
      if |decision.input| > 0 {
        input := decision.input;
      }
      ghost var o;
      flow, o := DispatchSubCall(call, input, last);
      LeafRan(call, decision.input, o, responseGroup, true);
      evs := [Decided(call, decision), Ran(call, input, o)];
      step := if o.Result? then StepOf(call, o.isError, o.marker, responseGroup) else StepOf(call, true, false, responseGroup);
      assert old(led.events) + [Decided(call, decision)] + [Ran(call, input, o)] == old(led.events) + evs;
    }

    // Running a sub-call; a broken tool becomes an error result, a pause or a cancellation ends the run.
    method DispatchSubCall(call: Call, input: string, last: bool) returns (flow: Flow, ghost o: Outcome)
      requires Settled() && InGroup() && Quiet(led) && finishResult == None
      modifies this
      ensures Processed(flow, last, old(led)) && SameRun()
      ensures led.events == old(led.events) + [Ran(call, input, o)] && led.past == old(led.past)
      ensures old(circuitBreakerTriggered) ==> circuitBreakerTriggered
      ensures flow.Next? ==>
        || (o.Result? && allSteps == old(allSteps) + [StepOf(call, o.isError, o.marker, responseGroup)])
        || (o.Infrastructure? && allSteps == old(allSteps) + [StepOf(call, true, false, responseGroup)])
      ensures o.Result? ==> (flow == Next <==> GoesOn(old(breaker), cfg.stopTools, call.name, o, false))
    {
      hide Books, OpenGroup, Owe, Accepted, Passes, GoesOn, Processed;
      var result := ExecuteToolCall(call, input);
      o := result;
      match result {
        case PauseSignal =>
          var abandoned := FlushPendingVerifyOnEditAtCheckpoint();
          PauseProcessed(abandoned, last, old(led));
          return Return(ExecResult(allSteps, false, PausedInCall(abandoned))), o;
        case Timeout | ContextEnd =>
          FailProcessed(last, old(led));
          return Fail, o;
        case Infrastructure =>
          ghost var l := led;
          flow := RecordFailure(call, last);
          ProcessedSince(flow, last, l, old(led));
        case Result(_, _, _, _) =>
          StillInGroup(old(led));
          ghost var l := led;
          flow := FinishDispatch(call, result, false, last);
          ProcessedSince(flow, last, l, old(led));
      }
    }

    method RecordFailure(call: Call, last: bool) returns (flow: Flow)
      requires Settled() && InGroup() && Quiet(led) && finishResult == None
      modifies `breaker, `allSteps, `led, `circuitBreakerTriggered, `pendingVerifyEdit, `finishResult
      ensures Processed(flow, last, old(led)) && (old(circuitBreakerTriggered) ==> circuitBreakerTriggered)
      ensures SameEvents(old(led)) && (flow == Next ==> allSteps == old(allSteps) + [StepOf(call, true, false, responseGroup)])
    {
      hide Books, OpenGroup, Owe, InGroup, Accepted;
      var o := Failure();
      InertStep(Step(call.name, call.input, true, false, 0));
      flow := FinishDispatch(call, o, false, last);
    }

    // A failed call whose observation is written by the executor itself.
    method Failure() returns (o: Outcome)
      ensures o.Result? && o.isError && !o.marker
    {
      var length: nat := *;
      o := Result(true, false, length, false);
    }

    // How a response may end the run.
    ghost predicate ResponseEnd(r: ExecResult)
      reads `allSteps, `pendingVerifyEdit
    {
      && r.steps == allSteps
      && match r.ending
         case InlineFinish => !pendingVerifyEdit && (r.finished <==> (cfg.mutationRequired ==> HasMutation(allSteps)))
         case ImplicitFinish => r.finished && !pendingVerifyEdit
         case StoppedByTool => r.finished
         case Aborted => !r.finished
         case PausedInCall(_) => !r.finished && !pendingVerifyEdit
         case _ => false
    }

    // How a run may end: with a response, or between two of them.
    ghost predicate RunEnd(r: ExecResult)
      reads `allSteps, `pendingVerifyEdit
    {
      ResponseEnd(r) || (r.steps == allSteps && !r.finished && (r.ending == PausedBetween || r.ending == LimitReached))
    }

    // The world failed in the current step.
    ghost predicate FaultedNow()
      reads `led, `stepNum
    {
      led.faults != [] && led.faults[|led.faults| - 1] == stepNum
    }

    // Between responses: the flow either goes on or ends the run.
    ghost predicate Between(flow: Flow, l: Ledger)
      reads `allSteps, `led, `responseGroupCounter, `pendingVerifyEdit, `effectiveMaxSteps, `stepNum
    {
      && Settled() && SameResponse(l) && led.abandoned == Abandons(flow) && flow != Break
      && (flow.Return? ==> ResponseEnd(flow.result)) && (flow == Fail ==> FaultedNow())
    }

    // All calls of one response; a multi-call response opens a group of its own.
    method ProcessToolCalls(calls: seq<Call>) returns (flow: Flow, ghost evs: seq<Event>, ghost steps: seq<Step>, ghost whole: bool)
      requires Settled() && Quiet(led)
      modifies this
      ensures Between(flow, old(led))
      ensures stepNum == old(stepNum) && effectiveMaxSteps == old(effectiveMaxSteps) && unlimitedSteps == old(unlimitedSteps)
      ensures |calls| > 1 ==> GroupsBelow(old(allSteps), responseGroup)
      ensures led.events == old(led.events) + evs && led.past == old(led.past)
      ensures (exists k :: 0 <= k < |evs| && evs[k].Decided? && evs[k].d.Reject?) ==> circuitBreakerTriggered
      ensures SameNudges()
      // all calls were served in order, each with its steps, or one of them broke the response off
      ensures if whole then flow.Next? && allSteps == old(allSteps) + steps && Served(calls, cfg.parseBatch, evs, steps, responseGroup)
              else BrokenOff(calls, cfg.parseBatch, evs, responseGroup)
    {
      hide Owe, OpenGroup, Books, InGroup, Served, BrokenOff, GroupsBelow;
      BeginCalls(|calls|);
      flow, evs, steps, whole := RunCalls(calls);
      if flow.Next? && finishResult.Some? {
        return Return(finishResult.value), evs, steps, whole;
      }
    }

    // Several calls share a group above all groups so far; a single call has none.
    method BeginCalls(n: nat)
      requires Settled()
      modifies `responseGroup, `responseGroupCounter, `finishResult, `circuitBreakerTriggered, `start
      ensures Settled() && InGroup() && finishResult == None && !circuitBreakerTriggered
      ensures if n > 1 then responseGroup > 0 && GroupsBelow(allSteps, responseGroup)
              else responseGroup == 0
    {
      hide Owe, OpenGroup, Counted, Blocks;
      var group := 0;
      ghost var max := responseGroupCounter;
      if n > 1 {
        responseGroupCounter := responseGroupCounter + 1;
        group := responseGroupCounter;
      }
      responseGroup := group;
      finishResult := None;
      circuitBreakerTriggered := false;
      start := |allSteps|;
      OpensHere(max);
    }

    lemma OpensHere(max: nat)
      requires Blocks(allSteps, led.owner, led.base) && GroupsAtMost(allSteps, max) && led.base <= max <= responseGroupCounter
      requires responseGroup == 0 || (responseGroup == max + 1 == responseGroupCounter)
      requires start == |allSteps|
      ensures InGroup()
    {
      OpensGroup(allSteps, led.owner, max, responseGroup, |led.checks|);
    }

    method RunCalls(calls: seq<Call>) returns (flow: Flow, ghost evs: seq<Event>, ghost steps: seq<Step>, ghost whole: bool)
      requires Settled() && InGroup() && Quiet(led) && finishResult == None
      modifies this
      ensures Settled() && SameResponse(old(led)) && SameRun() && led.abandoned == Abandons(flow)
      ensures flow.Return? ==> ResponseEnd(flow.result)
      ensures flow.Next? && finishResult.Some? ==> ResponseEnd(finishResult.value) && !finishResult.value.ending.PausedInCall?
      ensures flow != Break && (flow == Fail ==> FaultedNow())
      ensures led.events == old(led.events) + evs && led.past == old(led.past) && Flagged(evs)
      ensures if whole then
                flow.Next? && finishResult == None && allSteps == old(allSteps) + steps
                && Served(calls, cfg.parseBatch, evs, steps, responseGroup)
              else BrokenOff(calls, cfg.parseBatch, evs, responseGroup)
    {
      hide Books, InGroup, Served, BrokenOff, CallServed, CallBroken;
      evs, steps, whole := [], [], false;
      assert led.events + [] == led.events && allSteps + [] == allSteps;
      NoneServed(cfg.parseBatch, responseGroup);
      for callIdx := 0 to |calls|
        invariant Settled() && InGroup() && finishResult == None && SameRun() && SameResponse(old(led)) && !led.abandoned
        invariant callIdx < |calls| ==> Quiet(led)
        invariant led.events == old(led.events) + evs && led.past == old(led.past) && Flagged(evs) && !whole
        invariant allSteps == old(allSteps) + steps && Served(calls[..callIdx], cfg.parseBatch, evs, steps, responseGroup)
      {
        ghost var more, news;
        flow, more, news := ProcessSingleToolCall(calls[callIdx], callIdx, |calls|);
        ServedSnoc(calls[..callIdx], cfg.parseBatch, evs, steps, responseGroup, calls[callIdx], more, news);
        assert calls[..callIdx + 1] == calls[..callIdx] + [calls[callIdx]];
        assert calls == calls[..callIdx] + [calls[callIdx]] + calls[callIdx + 1..];
        assert old(led.events) + evs + more == old(led.events) + (evs + more);
        assert old(allSteps) + steps + news == old(allSteps) + (steps + news);
        evs, steps := evs + more, steps + news;
        if flow.Return? || flow.Fail? {
          return;
        }
        if flow.Break? {
          return Next, evs, steps, whole;
        }
      }
      assert calls[..|calls|] == calls;
      return Next, evs, steps, true;
    }

    // A response without tool calls.
    method HandleImplicitFinish(resp: Response) returns (flow: Flow, ghost looksLikeCall: bool)
      requires Settled() && Quiet(led)
      modifies `gates, `allSteps, `led, `pendingVerifyEdit, `implicitFinishNudges, `syntaxNudges
      ensures Between(flow, old(led)) && flow != Fail && SameEvents(old(led))
      // each nudge is spent: three for tool syntax, two for a missing call, one for a missing finish
      ensures flow == Next ==>
        || syntaxNudges == old(syntaxNudges) + 1 <= 3
        || implicitFinishNudges == old(implicitFinishNudges) + 1 <= 2
        || (gates.finishNudged && !old(gates.finishNudged))
      ensures flow.Return? && !flow.result.finished ==> old(syntaxNudges) >= 3
      ensures flow.Return? && flow.result.finished ==> flow.result.ending == ImplicitFinish && allSteps == old(allSteps) + [NUDGE]
      // which it is depends on the text, on why it ended, and on the nudges left
      ensures var syntax := cfg.hasTools && looksLikeCall;
              var missing := !syntax && resp.stop != EndTurn && cfg.hasTools && old(implicitFinishNudges) < 2;
              var silent := !syntax && !missing && cfg.suppressAssistantEvents && !old(gates.finishNudged);
              && (flow.Return? <==> if syntax then old(syntaxNudges) >= 3 else !missing && !silent)
              && (flow.Return? ==> flow.result.finished == !syntax)
              && allSteps == old(allSteps) + (if syntax && old(syntaxNudges) >= 3 then [] else [NUDGE])
              && syntaxNudges == old(syntaxNudges) + Tally(syntax && old(syntaxNudges) < 3)
              && implicitFinishNudges == old(implicitFinishNudges) + Tally(missing)
              && gates == if silent then old(gates).(finishNudged := true) else old(gates)
    {
      hide Books;
      var syntax: bool := *;
      looksLikeCall := syntax;
      if cfg.hasTools && syntax {
        if syntaxNudges < 3 {
          syntaxNudges := syntaxNudges + 1;
          Nudge(NOTHING, 0);
          return Next, looksLikeCall;
        }
        return Return(ExecResult(allSteps, false, Aborted)), looksLikeCall;
      }
      if resp.stop != EndTurn && cfg.hasTools && implicitFinishNudges < 2 {
        implicitFinishNudges := implicitFinishNudges + 1;
        Nudge(NOTHING, 0);
        return Next, looksLikeCall;
      }
      if cfg.suppressAssistantEvents && !gates.finishNudged {
        gates := gates.(finishNudged := true);
        Nudge(NOTHING, 0);
        return Next, looksLikeCall;
      }
      // The step of the text itself carries no tool.
      Nudge(NOTHING, 0);
      FlushPendingVerifyOnEdit(NOTHING);
      return Return(ExecResult(allSteps, true, ImplicitFinish)), looksLikeCall;
    }

    // Tool calls cut off by the output limit are not run.
    method HandleTruncation(first: Call) returns (flow: Flow, ghost asked: Option<LimitAnswer>)
      requires Settled() && !led.abandoned
      modifies `breaker, `allSteps, `led
      ensures Between(flow, old(led)) && flow != Fail && SameEvents(old(led))
      ensures asked.Some? <==> At(old(breaker.truncationAbort), old(breaker.truncations) + 1)
      ensures flow.Return? <==> asked.Some? && Denied(asked.value)
      ensures asked.Some? && !Denied(asked.value) ==>
        && breaker == old(breaker).(truncations := 0, truncationAbort := Off(asked, old(breaker.truncationAbort), DISABLED))
        && allSteps == old(allSteps) + [NUDGE]
      ensures !At(old(breaker.truncationAbort), old(breaker.truncations) + 1) ==>
        allSteps == old(allSteps) + [Step(first.name, first.input, true, false, 0)]
        && breaker == old(breaker).(truncations := old(breaker.truncations) + 1)
    {
      hide Books;
      asked := None;
      breaker := breaker.(truncations := breaker.truncations + 1);
      if breaker.truncationAbort > 0 && breaker.truncations >= breaker.truncationAbort {
        var answer := OnStepLimit();
        asked := Some(answer);
        match answer {
          case AllowOnce | AllowMore =>
            breaker := breaker.(truncations := 0);
            Nudge(NOTHING, 0);
            return Next, asked;
          case AllowAlways =>
            breaker := breaker.(truncations := 0, truncationAbort := DISABLED);
            Nudge(NOTHING, 0);
            return Next, asked;
          case Deny | CallbackError =>
            return Return(ExecResult(allSteps, false, Aborted)), asked;
        }
      }
      var s := Step(first.name, first.input, true, false, 0);
      InertStep(s);
      AppendLoose(s, NOTHING, 0);
      return Next, asked;
    }

    // At the limit the user may grant more iterations, and only here.
    method HandleStepLimitBoundary() returns (flow: Flow, ghost asked: Option<LimitAnswer>)
      requires Settled() && (unlimitedSteps || stepNum <= effectiveMaxSteps + 1)
      modifies `effectiveMaxSteps, `unlimitedSteps, `allSteps, `led
      ensures Settled() && led == old(led).(granted := led.granted, owner := led.owner)
      ensures flow == Next ==> unlimitedSteps || stepNum <= effectiveMaxSteps
      ensures flow == Next || flow == Return(ExecResult(allSteps, false, LimitReached))
      ensures old(unlimitedSteps) ==> unlimitedSteps
      // the user is asked at the limit, and what is granted is what was answered
      ensures asked.Some? <==> !old(unlimitedSteps) && old(stepNum > effectiveMaxSteps)
      ensures flow == Next <==> asked.None? || !Denied(asked.value)
      ensures led.granted - old(led.granted) == if asked == Some(AllowOnce) then 1
                                                else if asked == Some(AllowMore) then (if cfg.maxSteps < 1 then 1 else cfg.maxSteps)
                                                else 0
      ensures unlimitedSteps <==> old(unlimitedSteps) || asked == Some(AllowAlways)
      ensures allSteps == old(allSteps) + if asked.Some? && !Denied(asked.value) then [NUDGE] else []
      ensures asked.None? ==> led == old(led) && effectiveMaxSteps == old(effectiveMaxSteps)
    {
      asked := None;
      if unlimitedSteps || stepNum <= effectiveMaxSteps {
        return Next, asked;
      }
      var answer := OnStepLimit();
      asked := Some(answer);
      match answer {
        case AllowOnce =>
          Grant(1);
        case AllowMore =>
          var grant := cfg.maxSteps;
          if grant < 1 {
            grant := 1;
          }
          Grant(grant);
        case AllowAlways =>
          unlimitedSteps := true;
          Nudge(NOTHING, 0);
        case Deny | CallbackError =>
          return Return(ExecResult(allSteps, false, LimitReached)), asked;
      }
      return Next, asked;
    }

    method Grant(n: nat)
      requires Settled()
      modifies `effectiveMaxSteps, `allSteps, `led
      ensures Settled() && effectiveMaxSteps == old(effectiveMaxSteps) + n && allSteps == old(allSteps) + [NUDGE]
      ensures led == old(led).(granted := old(led.granted) + n, owner := led.owner)
    {
      hide Blocks;
      effectiveMaxSteps := effectiveMaxSteps + n;
      led := led.(granted := led.granted + n);
      Nudge(NOTHING, 0);
    }

    // A response opens a new entry in the ledger.
    ghost method Answered()
      requires Settled()
      modifies `led
      ensures Settled() && led == old(led).(checks := old(led.checks) + [0], events := [])
    {
      hide Blocks;
      led := led.(checks := led.checks + [0], events := []);
    }

    // The account of a response is closed.
    ghost method Close(h: Heard)
      requires Settled()
      modifies `led
      ensures Settled() && led == old(led).(past := old(led.past) + [h])
    {
      hide Blocks;
      led := led.(past := led.past + [h]);
    }

    // One call of the model; a response opens a new entry in the ledger.
    method CallLLM() returns (resp: Option<Response>, flow: Flow)
      requires Settled()
      modifies `led, `reactiveCompact
      ensures Settled() && led.calls == old(led.calls) + 1
      ensures resp.Some? ==> led == old(led).(calls := old(led.calls) + 1, checks := old(led.checks) + [0], events := []) && flow == Next
      ensures resp.None? ==> led == old(led).(calls := old(led.calls) + 1, faults := old(led.faults) + [stepNum])
      ensures resp.None? ==> flow == Next || flow == Fail
      // a failed call is forgiven once, until a step completes
      ensures resp.None? && flow == Next ==> !old(reactiveCompact) && reactiveCompact
      ensures resp.Some? || flow == Fail ==> reactiveCompact == old(reactiveCompact)
    {
      hide Blocks;
      led := led.(calls := led.calls + 1);
      var fails: bool := *;
      if fails {
        Fault();
        var exceeded: bool := *;
        if exceeded && !reactiveCompact {
          reactiveCompact := true;
          return None, Next;
        }
        return None, Fail;
      }
      Answered();
      var r: Response := *;
      return Some(r), Next;
    }

    // Three steps before the limit, once.
    predicate WrapUpDue()
      reads `effectiveMaxSteps, `stepNum, `wrapUpNudged
    {
      effectiveMaxSteps > 3 && stepNum >= effectiveMaxSteps - 3 && !wrapUpNudged
    }

    // Three productive calls behind the last checklist, twice.
    predicate StaleDue()
      reads `allSteps, `staleNudges
    {
      && cfg.checklistGate && cfg.checklistAvailable && HasChecklistUpdate(allSteps) && staleNudges < 2
      && SinceChecklist(allSteps) >= 3
    }

    // Nudges and compaction behind a completed step; a context that is full is compacted once.
    method AfterStep() returns (flow: Flow)
      requires Settled() && !led.abandoned
      modifies `wrapUpNudged, `staleNudges, `reactiveCompact, `allSteps, `led
      ensures Between(flow, old(led)) && (flow == Next || flow == Fail) && SameEvents(old(led))
      ensures wrapUpNudged == (old(wrapUpNudged) || old(WrapUpDue()))
      ensures staleNudges == old(staleNudges) + Tally(old(StaleDue()))
      ensures allSteps == old(allSteps) + (if old(WrapUpDue()) then [NUDGE] else []) + (if old(StaleDue()) then [NUDGE] else [])
      ensures flow == Next && reactiveCompact ==> !old(reactiveCompact)
    {
      hide Books, HasChecklistUpdate, SinceChecklist;
      NudgeNoProgress(allSteps);
      if effectiveMaxSteps > 3 && stepNum >= effectiveMaxSteps - 3 && !wrapUpNudged {
        wrapUpNudged := true;
        Nudge(NOTHING, 0);
      }
      if cfg.checklistGate && cfg.checklistAvailable && HasChecklistUpdate(allSteps) && staleNudges < 2 && SinceChecklist(allSteps) >= 3 {
        staleNudges := staleNudges + 1;
        Nudge(NOTHING, 0);
      }
      flow := CompactContext();
    }

    method CompactContext() returns (flow: Flow)
      requires Settled() && !led.abandoned
      modifies `reactiveCompact, `led
      ensures Settled() && (flow == Next || flow == Fail)
      ensures if flow == Next then led == old(led) else led == old(led).(faults := old(led.faults) + [stepNum])
      ensures flow == Next && reactiveCompact ==> !old(reactiveCompact)
    {
      hide Books;
      var full: bool := *;
      if full {
        var unusable: bool := *;
        if unusable || reactiveCompact {
          Fault();
          return Fail;
        }
        reactiveCompact := true;
        return Next;
      }
      reactiveCompact := false;
      return Next;
    }

    // ---------------------------------------------------------------------
    // The run
    // ---------------------------------------------------------------------

    // A pause asked for between two steps. Nothing is flushed here.
    method PauseBetween() returns (flow: Flow)
      ensures flow == Return(ExecResult(allSteps, false, PausedBetween))
    {
      flow := Return(ExecResult(allSteps, false, PausedBetween));
    }

    // One round: the limit, cancellation and pause, a user message, the model, its answer, the nudges behind it.
    method Round() returns (flow: Flow)
      requires Settled() && !led.abandoned && (unlimitedSteps || stepNum <= effectiveMaxSteps + 1)
      requires AllAccounted(led.past, cfg.parseBatch)
      modifies this
      // one more response is heard with every successful call of the model, and its account is in order
      ensures AllAccounted(led.past, cfg.parseBatch) && |led.past| - |old(led.past)| == |led.checks| - |old(led.checks)|
      ensures |led.past| >= |old(led.past)| && led.past[..|old(led.past)|] == old(led.past)
      ensures Settled() && (flow.Return? ==> RunEnd(flow.result)) && flow != Break && (flow == Fail ==> FaultedNow())
      ensures stepNum == old(stepNum) && (old(unlimitedSteps) ==> unlimitedSteps)
      ensures led.base == old(led.base) && led.seeds == old(led.seeds) && led.granted >= old(led.granted)
      ensures flow == Next ==> led.calls == old(led.calls) + 1
      ensures led.calls == old(led.calls) || (led.calls == old(led.calls) + 1 && (unlimitedSteps || stepNum <= effectiveMaxSteps))
      ensures flow == Next ==> unlimitedSteps || stepNum <= effectiveMaxSteps
      ensures led.abandoned == Abandons(flow)
      // a pause between two steps verifies nothing and calls nothing
      ensures flow.Return? && flow.result.ending == PausedBetween ==>
        pendingVerifyEdit == old(pendingVerifyEdit) && led == old(led).(granted := led.granted, owner := led.owner)
    {
      hide Books, AllAccounted;
      assert led.past[..|led.past|] == led.past;
      ghost var asked;
      flow, asked := HandleStepLimitBoundary();
      if flow.Return? {
        return;
      }
      var cancelled: bool := *;
      if cancelled {
        Fault();
        return Fail;
      }
      var pauses: bool := *;
      if pauses {
        flow := PauseBetween();
        return;
      }
      var message: bool := *;
      if message {
        Nudge(NOTHING, 0);
      }
      flow := AskModel();
    }

    // The call of the model and what comes of it.
    method AskModel() returns (flow: Flow)
      requires Settled() && !led.abandoned && AllAccounted(led.past, cfg.parseBatch)
      modifies this
      ensures Settled() && (flow.Return? ==> ResponseEnd(flow.result)) && flow != Break && (flow == Fail ==> FaultedNow())
      ensures led.calls == old(led.calls) + 1 && led.abandoned == Abandons(flow)
      ensures led.base == old(led.base) && led.seeds == old(led.seeds) && led.granted == old(led.granted)
      ensures stepNum == old(stepNum) && effectiveMaxSteps == old(effectiveMaxSteps) && unlimitedSteps == old(unlimitedSteps)
      ensures AllAccounted(led.past, cfg.parseBatch) && |led.past| - |old(led.past)| == |led.checks| - |old(led.checks)|
      ensures |led.past| >= |old(led.past)| && led.past[..|old(led.past)|] == old(led.past)
    {
      hide Books, AllAccounted, Accounted;
      assert led.past[..|led.past|] == led.past;
      var resp;
      resp, flow := CallLLM();
      if resp.None? {
        return;
      }
      ghost var past := led.past;
      flow := HandleResponse(resp.value);
      OneMoreAccount(past, led.past, cfg.parseBatch);
    }

    // A text, calls that were cut off, or calls; whatever comes of them enters the account of the response.
    method HandleResponse(resp: Response) returns (flow: Flow)
      requires Settled() && Quiet(led) && led.events == []
      modifies this
      ensures Between(flow, old(led))
      ensures stepNum == old(stepNum) && effectiveMaxSteps == old(effectiveMaxSteps) && unlimitedSteps == old(unlimitedSteps)
      ensures Told(resp, old(led))
      ensures var h := led.past[|led.past| - 1]; h.whole ==> old(allSteps) + h.steps <= allSteps
      // behind a rejection the model is asked again at once
      ensures flow == Next && (exists k :: 0 <= k < |led.events| && led.events[k].Decided? && led.events[k].d.Reject?) ==>
        wrapUpNudged == old(wrapUpNudged) && staleNudges == old(staleNudges) && reactiveCompact == old(reactiveCompact)
    {
      hide Books, Served, BrokenOff, Accounted;
      if resp.calls == [] {
        ghost var looksLikeCall;
        flow, looksLikeCall := HandleImplicitFinish(resp);
        NothingAsked(cfg.parseBatch);
        assert old(allSteps) + [] == old(allSteps);
        Close(Heard([], [], true, [], 0));
        return;
      }
      if resp.stop == MaxTokens {
        ghost var asked;
        flow, asked := HandleTruncation(resp.calls[0]);
        Close(Heard(resp.calls, [], false, [], 0));
        return;
      }
      breaker := breaker.(truncations := 0);
      flow := HandleCalls(resp);
    }

    method HandleCalls(resp: Response) returns (flow: Flow)
      requires Settled() && Quiet(led) && led.events == [] && resp.calls != [] && resp.stop != MaxTokens
      modifies this
      ensures Between(flow, old(led))
      ensures stepNum == old(stepNum) && effectiveMaxSteps == old(effectiveMaxSteps) && unlimitedSteps == old(unlimitedSteps)
      ensures Told(resp, old(led))
      ensures var h := led.past[|led.past| - 1]; h.whole ==> old(allSteps) + h.steps <= allSteps
      ensures flow == Next && (exists k :: 0 <= k < |led.events| && led.events[k].Decided? && led.events[k].d.Reject?) ==>
        wrapUpNudged == old(wrapUpNudged) && staleNudges == old(staleNudges) && reactiveCompact == old(reactiveCompact)
    {
      hide Books, Accounted;
      flow := HearCalls(resp);
      if !flow.Next? {
        return;
      }
      if circuitBreakerTriggered {
        circuitBreakerTriggered := false;
        return;
      }
      flow := AfterStep();
    }

    // Runs the calls and closes the account of the response.
    method HearCalls(resp: Response) returns (flow: Flow)
      requires Settled() && Quiet(led) && led.events == [] && resp.calls != [] && resp.stop != MaxTokens
      modifies this
      ensures Between(flow, old(led)) && SameNudges()
      ensures stepNum == old(stepNum) && effectiveMaxSteps == old(effectiveMaxSteps) && unlimitedSteps == old(unlimitedSteps)
      ensures Told(resp, old(led))
      ensures var h := led.past[|led.past| - 1]; h.whole ==> allSteps == old(allSteps) + h.steps
      ensures (exists k :: 0 <= k < |led.events| && led.events[k].Decided? && led.events[k].d.Reject?) ==> circuitBreakerTriggered
    {
      hide Books, Served, BrokenOff, Accounted;
      ghost var evs, steps, whole;
      flow, evs, steps, whole := ProcessToolCalls(resp.calls);
      assert [] + evs == evs;
      CallsAccounted(resp.calls, cfg.parseBatch, evs, steps, responseGroup, whole);
      Close(Heard(resp.calls, evs, whole, steps, responseGroup));
      assert led.past[|led.past| - 1].steps == steps;
    }

    // The account of this response is the latest, and it is in order; calls that were cut off were not run.
    ghost predicate Told(resp: Response, l: Ledger)
      reads `led
    {
      && |led.past| == |l.past| + 1 && led.past[..|l.past|] == l.past
      && var h := led.past[|l.past|];
         && h.calls == resp.calls && h.events == led.events
         && if resp.calls != [] && resp.stop == MaxTokens then h.events == [] else Accounted(h, cfg.parseBatch)
    }

    // The first `fuel` rounds of a run that resumes the given trajectory.
    method Run(resumeSteps: seq<Step>, fuel: nat) returns (out: RunOutcome)
      modifies this
      ensures Settled() && led.seeds == resumeSteps
      ensures GroupsAtMost(resumeSteps, led.base)
      ensures out.Returned? ==> RunEnd(out.result)
      ensures out.Failed? ==> FaultedNow()
      ensures led.abandoned <==> out.Returned? && out.result.ending == PausedInCall(true)
      // every response is accounted for
      ensures |led.past| == |led.checks| && AllAccounted(led.past, cfg.parseBatch)
      ensures out.StillRunning? ==> stepNum == |resumeSteps| + 1 + fuel
      ensures unlimitedSteps || led.calls <= Budget(cfg.maxSteps + led.granted - |resumeSteps|)
    {
      hide Books;
      StartRun(resumeSteps);
      ghost var startStep := stepNum;
      for k := 0 to fuel
        invariant Settled() && led.seeds == resumeSteps && GroupsAtMost(resumeSteps, led.base) && !led.abandoned
        invariant |led.past| == |led.checks| && AllAccounted(led.past, cfg.parseBatch)
        invariant startStep == |resumeSteps| + 1 && stepNum == startStep + k && led.calls <= stepNum - startStep
        invariant unlimitedSteps || led.calls <= Budget(effectiveMaxSteps - |resumeSteps|)
        invariant unlimitedSteps || stepNum == startStep || stepNum <= effectiveMaxSteps + 1
      {
        if !unlimitedSteps && stepNum > effectiveMaxSteps + 1 {
          EffectiveIs();
          return Returned(ExecResult(allSteps, false, LimitReached));
        }
        EffectiveIs();
        var flow := Round();
        EffectiveIs();
        match flow {
          case Return(r) => return Returned(r);
          case Fail => return Failed;
          case _ =>
        }
        stepNum := stepNum + 1;
      }
      EffectiveIs();
      return StillRunning;
    }

    lemma EffectiveIs()
      requires Settled()
      ensures effectiveMaxSteps == cfg.maxSteps + led.granted
    {
    }

    lemma PendingMeans()
      requires Settled() && cfg.verifier && !led.abandoned
      ensures pendingVerifyEdit <==> led.edits > led.verified
    {
    }

    // What settled books say about the trajectory: the resumed steps stand first; the new steps record exactly the
    // mutations and edits that were dispatched successfully; equal groups are one contiguous block of one response,
    // never shared with a resumed step; a verification is pending exactly when an edit succeeded after the last one;
    // no response was verified twice.
    lemma SettledMeans()
      requires Settled()
      ensures led.seeds <= allSteps
      ensures led.mutations == CountMutations(allSteps[|led.seeds|..]) && led.edits == CountEdits(allSteps[|led.seeds|..])
      ensures forall i, j :: 0 <= i < j < |allSteps| && |led.seeds| <= j && allSteps[j].group > 0 && allSteps[i].group == allSteps[j].group ==>
        |led.owner| == |allSteps| && OneBlock(allSteps, led.owner, i, j)
      ensures GroupsAtMost(led.seeds, led.base) ==>
        forall i, j :: 0 <= i < |led.seeds| <= j < |allSteps| && allSteps[j].group > 0 ==> allSteps[i].group != allSteps[j].group
      ensures cfg.verifier && !led.abandoned ==> (pendingVerifyEdit <==> led.edits > led.verified)
      ensures AtMostOnce(led.checks)
    {
      forall i, j | 0 <= i < |led.seeds| <= j < |allSteps| && allSteps[j].group > 0 && GroupsAtMost(led.seeds, led.base)
        ensures allSteps[i].group != allSteps[j].group
      {
        assert allSteps[i] == led.seeds[i];
      }
    }

    // Which endings leave an edit unverified. A finish leaves none; a pause in mid-call leaves one if and only if its
    // verification was abandoned; any other ending if and only if a verification is pending.
    lemma EndsVerified(r: ExecResult)
      requires Settled() && RunEnd(r) && cfg.verifier && (led.abandoned <==> r.ending == PausedInCall(true))
      ensures r.ending.InlineFinish? || r.ending.ImplicitFinish? ==> led.edits == led.verified
      ensures r.ending.PausedInCall? ==> (led.edits > led.verified <==> r.ending.abandoned) && !pendingVerifyEdit
      ensures !r.ending.PausedInCall? ==> (led.edits > led.verified <==> pendingVerifyEdit)
    {
    }

    // A step that required a mutation and was reported finished by an inline finish really made one.
    lemma FinishedMutated(r: ExecResult)
      requires Settled() && RunEnd(r) && r.ending == InlineFinish && cfg.mutationRequired
      ensures r.finished <==> CountMutations(led.seeds) + led.mutations > 0
      ensures !pendingVerifyEdit
    {
      hide Blocks, Mutates, CountMutations;
      assert allSteps == led.seeds + allSteps[|led.seeds|..];
      CountConcat(led.seeds, allSteps[|led.seeds|..]);
      CountedMutation(allSteps);
    }

    // A fresh run state over the resumed steps; the group counter is seeded past their groups.
    method StartRun(resumeSteps: seq<Step>)
      modifies this
      ensures Settled() && allSteps == resumeSteps && led.seeds == resumeSteps && GroupsAtMost(resumeSteps, led.base)
      ensures stepNum == |resumeSteps| + 1 && effectiveMaxSteps == cfg.maxSteps && !unlimitedSteps
      ensures led.calls == led.granted == led.edits == led.verified == 0 && led.checks == [] && led.past == [] && !led.abandoned
      ensures breaker == old(breaker) && gates == old(gates)
    {
      hide Books, NoOwners;
      SeedCounter(resumeSteps);
      ClearRun();
      stepNum, allSteps, effectiveMaxSteps := |resumeSteps| + 1, resumeSteps, cfg.maxSteps;
      led := Ledger(resumeSteps, responseGroupCounter, 0, 0, 0, [], NoOwners(|resumeSteps|), 0, 0, [], false, [], []);
      StartSettled();
    }

    method ClearRun()
      modifies `unlimitedSteps, `circuitBreakerTriggered, `pendingVerifyEdit, `responseGroup, `finishResult,
        `implicitFinishNudges, `syntaxNudges, `wrapUpNudged, `staleNudges, `reactiveCompact
      ensures !unlimitedSteps && !pendingVerifyEdit && !circuitBreakerTriggered && finishResult == None
    {
      unlimitedSteps, circuitBreakerTriggered, pendingVerifyEdit, responseGroup, finishResult := false, false, false, 0, None;
      implicitFinishNudges, syntaxNudges, wrapUpNudged, staleNudges, reactiveCompact := 0, 0, false, 0, false;
    }

    lemma StartSettled()
      requires led == Ledger(allSteps, responseGroupCounter, 0, 0, 0, [], NoOwners(|allSteps|), 0, 0, [], false, [], [])
      requires GroupsAtMost(allSteps, responseGroupCounter) && !pendingVerifyEdit && effectiveMaxSteps == cfg.maxSteps
      ensures Settled()
    {
      hide Blocks, FreshGroups, CountMutations, CountEdits;
      SeedsSettled(allSteps, responseGroupCounter);
    }

    method SeedCounter(resumeSteps: seq<Step>)
      modifies `responseGroupCounter
      ensures GroupsAtMost(resumeSteps, responseGroupCounter) && responseGroupCounter >= old(responseGroupCounter)
    {
      for i := 0 to |resumeSteps|
        invariant responseGroupCounter >= old(responseGroupCounter)
        invariant forall k :: 0 <= k < i ==> resumeSteps[k].group <= responseGroupCounter
      {
        if resumeSteps[i].group > responseGroupCounter {
          responseGroupCounter := resumeSteps[i].group;
        }
      }
    }
  }

  // A pause between two steps that leaves an edit unverified: of two calls in one response the first writes a file
  // and the second is a batch without calls, which reaches no verification.
  method PausedUnverified(cfg: Config, breaker: Breaker, input: string, nothing: string) returns (e: Executor, flow: Flow)
    requires cfg.verifier && "write_file" !in cfg.stopTools && cfg.parseBatch(nothing) == None
    ensures fresh(e) && e.cfg == cfg && e.Settled() && flow == Return(ExecResult(e.allSteps, false, PausedBetween))
    ensures e.led.edits == 1 && e.led.verified == 0 && e.pendingVerifyEdit
  {
    hide Executor.Books, OpenGroup, Owe, Executor.Accepted;
    var write, batch, wrote := Call("write_file", input), Call("batch", nothing), Result(false, false, 0, false);
    e := new Executor(cfg, breaker);
    e.StartRun([]);
    e.Answered();
    e.BeginCalls(2);
    e.Observe(write, wrote);
    flow := e.FinishDispatch(write, wrote, true, false);
    ghost var evs, steps;
    flow, evs, steps := e.ProcessBatchTool(batch, 1, 2);
    flow := e.PauseBetween();
    e.PendingMeans();
  }

  // A pause in mid-call that leaves an edit unverified: the first of two calls writes a file, the second pauses, and
  // the verifier does not return in time.
  method PausedAbandoned(cfg: Config, breaker: Breaker, input: string) returns (e: Executor, r: ExecResult)
    requires cfg.verifier && "write_file" !in cfg.stopTools
    ensures fresh(e) && e.cfg == cfg && e.Settled() && r == ExecResult(e.allSteps, false, PausedInCall(true)) && e.RunEnd(r)
    ensures e.led.edits == 1 && e.led.verified == 0 && e.led.abandoned && !e.pendingVerifyEdit
  {
    hide Executor.Books, OpenGroup, Owe, Executor.Accepted;
    var write, wrote := Call("write_file", input), Result(false, false, 0, false);
    e := new Executor(cfg, breaker);
    e.StartRun([]);
    e.Answered();
    e.BeginCalls(2);
    e.Observe(write, wrote);
    var flow := e.FinishDispatch(write, wrote, true, false);
    e.PendingMeans();
    e.AbandonVerification();
    r := ExecResult(e.allSteps, false, PausedInCall(true));
  }

  // A denial that is not honoured: the user rejects a call, the model repeats it in the same response, and the user,
  // asked by the breaker, denies.
  method DeniedAfterRejection(cfg: Config, breaker: Breaker, call: Call) returns (e: Executor, flow: Flow, ghost asked: Option<LimitAnswer>)
    requires breaker.repeatAbort == 2 && breaker.repeatNudge == 0 && breaker.lastKey != call.name + ":" + cfg.compact(call.input)
    ensures fresh(e) && e.cfg == cfg && e.Settled() && asked.Some?
    ensures asked.Some? && Denied(asked.value) ==> flow == Break
  {
    hide Executor.Books, OpenGroup, Owe, Executor.Accepted, Executor.Off, Executor.SameRun, Executor.Stopped, Executor.InGroup;
    e := new Executor(cfg, breaker);
    e.StartRun([]);
    e.Answered();
    e.BeginCalls(2);
    flow, asked := RepeatRejected(e, call);
  }

  method RepeatRejected(e: Executor, call: Call) returns (flow: Flow, ghost asked: Option<LimitAnswer>)
    requires e.Settled() && e.InGroup() && Quiet(e.led) && e.finishResult == None
    requires e.breaker.repeatAbort == 2 && e.breaker.repeatNudge == 0
    requires e.breaker.lastKey != call.name + ":" + e.cfg.compact(call.input)
    modifies e
    ensures e.Settled() && asked.Some? && (Denied(asked.value) ==> flow == Break)
  {
    hide Executor.Books, OpenGroup, Owe, Executor.Accepted, Executor.Off, Executor.Stopped;
    flow, asked := e.CheckRepeatIdenticalTool(call);
    e.RecordRejected(call, false);
    flow, asked := e.CheckRepeatIdenticalTool(call);
  }

  function Budget(n: int): nat { if n < 0 then 0 else n }
}
