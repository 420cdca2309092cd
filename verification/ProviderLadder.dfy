// Choosing an execution provider and owning its session options: embedding/embedder.go:225-643, 845-1019,
// 1078-1126, embedding/onnx.go:139-203 and embedding/openvino.go:181-313.
module ProviderLadder {
  import opened Prelude

  datatype Provider = CPU | CUDA | OpenVINO

  datatype Request = Explicit(p: Provider) | Auto

  // Why an attempt was given up: a rung of the ladder, or one OpenVINO device.
  datatype Reason = Rung(p: Provider) | Device(i: nat)

  // What became of a rung: whether its options were built, and whether a session, if one was tried, came up.
  datatype Stage = Untried | Down | Up

  datatype Attempt = Attempt(rung: Provider, options: bool, session: Stage)

  // What the runtime was asked, with its answer and, for options and sessions, the device preferred at the time.
  datatype Try =
    | Init(ok: bool) | Load(ok: bool) | Count(ok: bool)
    | Opts(p: Provider, device: int, ok: bool) | Sess(p: Provider, device: int, ok: bool)

  const LADDER: seq<Provider> := [CUDA, OpenVINO]

  function LadderIndex(p: Provider): int { if p == CUDA then 0 else if p == OpenVINO then 1 else -1 }

  // ---------------------------------------------------------------------
  // The runtime
  // ---------------------------------------------------------------------

  function AllDevices(count: nat): (r: seq<nat>)
    ensures |r| == count && forall i :: 0 <= i < count ==> r[i] == i
  {
    seq(count, i requires 0 <= i < count => i)
  }

  // The preferred device once there is one, else the whole list.
  function NarrowOpenVINODevices(devices: seq<nat>, preferred: int): seq<nat> {
    if 0 <= preferred < |devices| then devices[preferred..preferred + 1] else devices
  }

  // Native option handles. Destroying needs a live handle, so none is destroyed twice.
  class Ort {
    const deviceCount: nat
    var preferred: int
    var next: nat
    ghost var live: set<nat>
    ghost var dead: set<nat>
    ghost var provider: map<nat, Provider>
    ghost var devices: map<nat, seq<nat>>
    ghost var faults: nat             // how often the runtime refused
    ghost var asked: seq<Try>

    constructor (deviceCount: nat)
      ensures Valid() && live == {}
    {
      this.deviceCount := deviceCount;
      preferred, next, live, dead, provider, devices, faults, asked := -1, 0, {}, {}, map[], map[], 0, [];
    }

    ghost predicate Valid()
      reads `live, `dead, `next, `provider, `devices
    {
      && live !! dead && live <= provider.Keys
      && (forall h: nat :: h in live || h in dead <==> h < next)
      && (forall h :: h in provider ==> h < next)
      && forall h :: h in live && provider[h] == OpenVINO ==> h in devices
    }

    // A handle dies at most once and never comes back.
    twostate predicate Later()
      reads this
    {
      && old(dead) <= dead && old(next) <= next && old(live) <= live + dead && old(faults) <= faults && old(asked) <= asked
      && forall h :: h in old(provider) ==> h in provider && provider[h] == old(provider)[h]
    }

    method Destroy(h: nat)
      requires Valid() && h in live
      modifies `live, `dead
      ensures Valid() && Later() && live == old(live) - {h} && dead == old(dead) + {h}
    {
      live, dead := live - {h}, dead + {h};
    }

    // The runtime's answer to a request.
    method Accepts() returns (ok: bool)
      modifies `faults
      ensures faults == old(faults) + if ok then 0 else 1
    {
      ok := *;
      if !ok {
        faults := faults + 1;
      }
    }

    // The runtime library itself, the model file, the device list, and a session on the options held.
    method Initialize() returns (ok: bool)
      modifies `faults, `asked
      ensures faults == old(faults) + (if ok then 0 else 1) && asked == old(asked) + [Init(ok)]
    {
      ok := Accepts();
      asked := asked + [Init(ok)];
    }

    method LoadModel() returns (ok: bool)
      modifies `faults, `asked
      ensures faults == old(faults) + (if ok then 0 else 1) && asked == old(asked) + [Load(ok)]
    {
      ok := Accepts();
      asked := asked + [Load(ok)];
    }

    method CountDevices() returns (n: Option<nat>)
      modifies `asked
      ensures asked == old(asked) + [Count(n.Some?)] && (n.Some? ==> n.value == deviceCount)
    {
      var counted: bool := *;
      asked := asked + [Count(counted)];
      n := if counted then Some(deviceCount) else None;
    }

    method CreateSession(ghost p: Provider) returns (ok: bool)
      modifies `faults, `asked
      ensures faults == old(faults) + (if ok then 0 else 1) && asked == old(asked) + [Sess(p, preferred, ok)]
    {
      ok := Accepts();
      asked := asked + [Sess(p, preferred, ok)];
    }

    // ort.NewSessionOptions
    method NewSessionOptions(ghost p: Provider) returns (h: nat, ok: bool)
      requires Valid()
      modifies `next, `live, `provider, `devices, `faults
      ensures faults == old(faults) + if ok then 0 else 1
      ensures Valid() && Later() && (!ok ==> live == old(live))
      ensures ok ==> h == old(next) && live == old(live) + {h} && h !in old(live) + old(dead) && provider[h] == p
      ensures ok && p == OpenVINO ==> h in devices && devices[h] == NarrowOpenVINODevices(AllDevices(deviceCount), preferred)
    {
      ok := Accepts();
      h := next;
      if ok {
        next := next + 1;
        live := live + {h};
        provider := provider[h := p];
        devices := devices[h := NarrowOpenVINODevices(AllDevices(deviceCount), preferred)];
      }
    }

    // What building options for p did: a failure leaves nothing behind, a success is one new live handle
    // of that provider, or none for the plain CPU.
    twostate predicate Built(p: Provider, new opts: Option<nat>, ok: bool)
      reads this
    {
      && Valid() && Later() && preferred == old(preferred)
      && (opts.None? ==> live == old(live) && (ok ==> p == CPU))
      && (opts.Some? ==>
            && ok && opts.value !in old(live) + old(dead) && live == old(live) + {opts.value}
            && provider[opts.value] == p
            && (p == OpenVINO ==> devices[opts.value] == NarrowOpenVINODevices(AllDevices(deviceCount), preferred)))
    }

    method BuildSessionOptions(p: Provider, deviceID: int, intraOpThreads: int) returns (opts: Option<nat>, ok: bool)
      requires Valid()
      modifies `next, `live, `dead, `provider, `devices, `faults, `asked
      ensures Built(p, opts, ok) && asked == old(asked) + [Opts(p, preferred, ok)]
      ensures !ok ==> faults > old(faults) || (p == OpenVINO && deviceID != 0)
      ensures ok && opts.None? ==> intraOpThreads <= 0
      ensures ok && p == OpenVINO ==> deviceID == 0
    {
      opts, ok := MakeOptions(p, deviceID, intraOpThreads);
      asked := asked + [Opts(p, preferred, ok)];
    }

    method MakeOptions(p: Provider, deviceID: int, intraOpThreads: int) returns (opts: Option<nat>, ok: bool)
      requires Valid()
      modifies `next, `live, `dead, `provider, `devices, `faults
      ensures Built(p, opts, ok)
      ensures !ok ==> faults > old(faults) || (p == OpenVINO && deviceID != 0)
      ensures ok && opts.None? ==> intraOpThreads <= 0
      ensures ok && p == OpenVINO ==> deviceID == 0
    {
      if p == CPU && intraOpThreads <= 0 {
        return None, true;
      }
      var h, created := NewSessionOptions(p);
      if !created {
        return None, false;
      }
      if intraOpThreads > 0 {
        var accepted := Accepts();
        if !accepted {
          Destroy(h);
          return None, false;
        }
      }
      if p != CPU {
        var appended := Accepts();
        if !appended || (p == OpenVINO && deviceID != 0) {
          Destroy(h);
          return None, false;
        }
      }
      return Some(h), true;
    }
  }

  // ---------------------------------------------------------------------
  // Histories
  // ---------------------------------------------------------------------

  predicate Won(a: Attempt) { a.options && !a.session.Down? }

  // The rungs from the given index were tried in order, each once, and all but the last failed.
  predicate Walked(log: seq<Attempt>, from: nat) {
    && from + |log| <= |LADDER|
    && (forall i :: 0 <= i < |log| ==> log[i].rung == LADDER[from + i])
    && forall i :: 0 <= i < |log| - 1 ==> !Won(log[i])
  }

  function RungReasons(log: seq<Attempt>): seq<Reason> {
    if log == [] then []
    else RungReasons(log[..|log| - 1]) + if Won(log[|log| - 1]) then [] else [Rung(log[|log| - 1].rung)]
  }

  // The reasons that name rungs, in order.
  function OfRungs(reasons: seq<Reason>): seq<Reason> {
    if reasons == [] then []
    else OfRungs(reasons[..|reasons| - 1]) + if reasons[|reasons| - 1].Rung? then [reasons[|reasons| - 1]] else []
  }

  lemma OfRungsSnoc(reasons: seq<Reason>, r: Reason)
    ensures OfRungs(reasons + [r]) == OfRungs(reasons) + if r.Rung? then [r] else []
  {
    assert (reasons + [r])[..|reasons|] == reasons;
  }

  lemma RungReasonsSnoc(log: seq<Attempt>, a: Attempt)
    ensures RungReasons(log + [a]) == RungReasons(log) + if Won(a) then [] else [Rung(a.rung)]
  {
    assert (log + [a])[..|log|] == log;
  }

  // The first n rungs, none of whose options could be built.
  predicate Failures(log: seq<Attempt>, n: nat) {
    |log| == n <= |LADDER| && forall i :: 0 <= i < n ==> log[i] == Attempt(LADDER[i], false, Untried)
  }

  lemma NoFailures()
    ensures Failures([], 0) && RungReasons([]) == []
  {
  }

  lemma FailuresSnoc(log: seq<Attempt>, n: nat)
    requires n < |LADDER| && Failures(log, n)
    ensures var a := Attempt(LADDER[n], false, Untried);
            Failures(log + [a], n + 1) && RungReasons(log + [a]) == RungReasons(log) + [Rung(LADDER[n])]
  {
    RungReasonsSnoc(log, Attempt(LADDER[n], false, Untried));
  }

  // The provider is that of the first rung that did not fail, or the CPU when all did.
  predicate AutoWinner(log: seq<Attempt>, p: Provider) {
    && Walked(log, 0) && log != []
    && if Won(log[|log| - 1]) then p == log[|log| - 1].rung else p == CPU && |log| == |LADDER|
  }

  lemma {:induction false} RungsOnly(log: seq<Attempt>)
    ensures OfRungs(RungReasons(log)) == RungReasons(log)
  {
    if log != [] {
      RungsOnly(log[..|log| - 1]);
      var before := RungReasons(log[..|log| - 1]);
      OfRungsSnoc(before, Rung(log[|log| - 1].rung));
      assert before + [] == before;
    }
  }

  lemma LostAll(failed: seq<Attempt>)
    requires Failures(failed, |LADDER|)
    ensures AutoWinner(failed, CPU)
  {
  }

  lemma WonAt(failed: seq<Attempt>, index: nat, a: Attempt)
    requires index < |LADDER| && Failures(failed, index) && a.rung == LADDER[index] && Won(a)
    ensures AutoWinner(failed + [a], a.rung) && RungReasons(failed + [a]) == RungReasons(failed)
  {
    hide RungReasons;
    RungReasonsSnoc(failed, a);
    assert RungReasons(failed) + [] == RungReasons(failed);
    assert Walked(failed + [a], 0);
  }

  lemma {:induction false} RungReasonsConcat(a: seq<Attempt>, b: seq<Attempt>)
    ensures RungReasons(a + b) == RungReasons(a) + RungReasons(b)
  {
    if b == [] {
      assert a + b == a;
    } else {
      var n := |b| - 1;
      assert a + b == a + b[..n] + [b[n]];
      RungReasonsConcat(a, b[..n]);
      RungReasonsSnoc(a + b[..n], b[n]);
    }
  }

  // Options failures, a session failure, then the rest of the ladder at the session stage.
  lemma AdvancedFrom(failed: seq<Attempt>, index: nat, a: Attempt, more: seq<Attempt>, p: Provider)
    requires index < |LADDER| && Failures(failed, index) && a == Attempt(LADDER[index], true, Down)
    requires Walked(more, index + 1)
    ensures var log := failed + [a] + more;
            && RungReasons(log) == RungReasons(failed) + [Rung(a.rung)] + RungReasons(more)
            && (more != [] && Won(more[|more| - 1]) ==> AutoWinner(log, more[|more| - 1].rung))
            && ((more == [] || !Won(more[|more| - 1])) && index + 1 + |more| == |LADDER| ==> AutoWinner(log, CPU))
  {
    hide RungReasons, AutoWinner;
    RungReasonsConcat(failed + [a], more);
    RungReasonsSnoc(failed, a);
    WalkedConcat(failed, index, a, more);
    var log := failed + [a] + more;
    assert more != [] ==> log[|log| - 1] == more[|more| - 1];
    assert more == [] ==> log[|log| - 1] == a;
    WinnerIs(log);
  }

  lemma WinnerIs(log: seq<Attempt>)
    requires Walked(log, 0) && log != []
    ensures Won(log[|log| - 1]) ==> AutoWinner(log, log[|log| - 1].rung)
    ensures !Won(log[|log| - 1]) && |log| == |LADDER| ==> AutoWinner(log, CPU)
  {
  }

  lemma WalkedConcat(failed: seq<Attempt>, index: nat, a: Attempt, more: seq<Attempt>)
    requires index < |LADDER| && Failures(failed, index) && a == Attempt(LADDER[index], true, Down)
    requires Walked(more, index + 1)
    ensures Walked(failed + [a] + more, 0)
  {
    var log := failed + [a] + more;
    forall i | 0 <= i < |log| ensures log[i].rung == LADDER[i] && (i < |log| - 1 ==> !Won(log[i])) {
      if i > index {
        assert log[i] == more[i - index - 1];
      }
    }
  }

  // ---------------------------------------------------------------------
  // What was tried
  // ---------------------------------------------------------------------

  // Options or a session of the provider were refused.
  predicate Denied(t: Try, p: Provider) { (t.Opts? || t.Sess?) && t.p == p && !t.ok }

  // The providers were refused one after the other.
  ghost predicate FailedInOrder(t: seq<Try>, ps: seq<Provider>)
    decreases |ps|
  {
    || ps == []
    || exists k :: 0 <= k < |t| && Denied(t[k], ps[|ps| - 1]) && FailedInOrder(t[..k], ps[..|ps| - 1])
  }

  lemma FailedMore(t: seq<Try>, more: seq<Try>, ps: seq<Provider>)
    requires FailedInOrder(t, ps)
    ensures FailedInOrder(t + more, ps)
  {
    if ps != [] {
      var k :| 0 <= k < |t| && Denied(t[k], ps[|ps| - 1]) && FailedInOrder(t[..k], ps[..|ps| - 1]);
      assert (t + more)[k] == t[k] && (t + more)[..k] == t[..k];
    }
  }

  lemma FailedNext(t: seq<Try>, x: Try, ps: seq<Provider>, p: Provider)
    requires FailedInOrder(t, ps) && Denied(x, p)
    ensures FailedInOrder(t + [x], ps + [p])
  {
    var u := t + [x];
    assert u[|t|] == x && u[..|t|] == t && (ps + [p])[..|ps|] == ps;
  }

  lemma {:induction false} FailedConcat(a: seq<Try>, ps: seq<Provider>, b: seq<Try>, qs: seq<Provider>)
    requires FailedInOrder(a, ps) && FailedInOrder(b, qs)
    ensures FailedInOrder(a + b, ps + qs)
    decreases |qs|
  {
    if qs == [] {
      assert ps + qs == ps;
      FailedMore(a, b, ps);
    } else {
      var n := |qs| - 1;
      var k :| 0 <= k < |b| && Denied(b[k], qs[n]) && FailedInOrder(b[..k], qs[..n]);
      FailedConcat(a, ps, b[..k], qs[..n]);
      assert (a + b)[|a| + k] == b[k] && (a + b)[..|a| + k] == a + b[..k];
      assert (ps + qs)[..|ps + qs| - 1] == ps + qs[..n];
    }
  }

  // What one attempt, and what a history of attempts, asked.
  function TriesOf(a: Attempt, device: int): seq<Try> {
    [Opts(a.rung, device, a.options)] + if a.options && !a.session.Untried? then [Sess(a.rung, device, a.session.Up?)] else []
  }

  function LogTries(log: seq<Attempt>, device: int): seq<Try> {
    if log == [] then [] else LogTries(log[..|log| - 1], device) + TriesOf(log[|log| - 1], device)
  }

  lemma NoTries(device: int)
    ensures LogTries([], device) == [] && FailedInOrder([], [])
  {
  }

  lemma TriesSnoc(log: seq<Attempt>, a: Attempt, device: int, ps: seq<Provider>)
    requires FailedInOrder(LogTries(log, device), ps)
    ensures LogTries(log + [a], device) == LogTries(log, device) + TriesOf(a, device)
    ensures !Won(a) ==> FailedInOrder(LogTries(log + [a], device), ps + [a.rung])
  {
    assert (log + [a])[..|log|] == log;
    var t := LogTries(log, device);
    if !a.options {
      assert TriesOf(a, device) == [Opts(a.rung, device, false)];
      FailedNext(t, Opts(a.rung, device, false), ps, a.rung);
    } else if a.session.Down? {
      FailedMore(t, [Opts(a.rung, device, true)], ps);
      FailedNext(t + [Opts(a.rung, device, true)], Sess(a.rung, device, false), ps, a.rung);
      assert t + [Opts(a.rung, device, true)] + [Sess(a.rung, device, false)] == t + TriesOf(a, device);
    }
  }

  lemma WalkedNone(from: nat)
    requires from <= |LADDER|
    ensures Walked([], from)
  {
  }

  // One more rung of a walk on which all rungs so far failed.
  lemma RungTried(log: seq<Attempt>, a: Attempt, from: nat, k: nat, device: int)
    requires Walked(log, from) && |log| == k - from && k < |LADDER| && a.rung == LADDER[k]
    requires log != [] ==> !Won(log[|log| - 1])
    requires FailedInOrder(LogTries(log, device), LADDER[from..k])
    ensures Walked(log + [a], from) && LogTries(log + [a], device) == LogTries(log, device) + TriesOf(a, device)
    ensures !Won(a) ==> FailedInOrder(LogTries(log + [a], device), LADDER[from..k + 1])
  {
    hide FailedInOrder, LogTries, TriesOf;
    TriesSnoc(log, a, device, LADDER[from..k]);
    assert LADDER[from..k + 1] == LADDER[from..k] + [a.rung];
  }

  lemma BehindProvider(t: seq<Try>, more: seq<Try>, p: Provider, ok: bool, now: Provider, deviceCount: nat, attempted: int)
    requires p != CPU && SessionRefused(t, p, deviceCount, attempted) && FailedInOrder(t, [p])
    requires if ok then Opened(more, now) else FailedInOrder(more, LADDER[LadderIndex(p) + 1..] + [CPU])
    ensures SessionRefused(t + more, p, deviceCount, attempted)
    ensures if ok then Opened(t + more, now) else FailedInOrder(t + more, LADDER[LadderIndex(p)..] + [CPU])
  {
    hide SessionRefused, FailedInOrder;
    RefusedMore(t, more, p, deviceCount, attempted);
    if !ok {
      FailedConcat(t, [p], more, LADDER[LadderIndex(p) + 1..] + [CPU]);
      assert [p] + (LADDER[LadderIndex(p) + 1..] + [CPU]) == LADDER[LadderIndex(p)..] + [CPU];
    }
  }

  lemma Concluded(request: Request, chosen: seq<Try>, index: int, more: seq<Try>, ok: bool, buckets: bool, p: Provider,
                  deviceCount: nat, attempted: int)
    requires -1 <= index < |LADDER|
    requires request.Explicit? ==> |chosen| == 1 && chosen[0].Opts? && chosen[0].p == request.p && chosen[0].ok
    requires request.Auto? ==> FailedInOrder(chosen, if index < 0 then LADDER else LADDER[..index])
    requires if ok then !buckets ==> Opened(more, p)
             else LoadRefused(request, index, more,
               if request.Explicit? then request.p else if index < 0 then CPU else LADDER[index], deviceCount, attempted)
    ensures var t := [Init(true)] + chosen + more;
            if ok then !buckets ==> Opened(t, p) else GivenUp(request, t, deviceCount, attempted)
  {
    hide FailedInOrder, LoadRefused, GivenUp;
    assert [Init(true)] + chosen + more == [Init(true)] + (chosen + more);
    if !ok {
      LoadGivenUp(request, chosen, index, more, deviceCount, attempted);
    }
  }

  // The device whose failure leads to a retry.
  function Attempted(preferred: int): int { if preferred >= 0 then preferred else 0 }

  ghost predicate DeviceDown(t: seq<Try>, i: int) { exists k :: 0 <= k < |t| && Denied(t[k], OpenVINO) && t[k].device == i }

  // Every device before device n but one was refused.
  ghost predicate DevicesDown(t: seq<Try>, n: int, failed: int) { forall i :: 0 <= i < n && i != failed ==> DeviceDown(t, i) }

  // The devices were counted and, when there were several, each but the one attempted before was refused.
  ghost predicate DevicesTried(t: seq<Try>, deviceCount: nat, attempted: int) {
    t != [] && t[0].Count? && (t[0].ok && deviceCount > 1 ==> DevicesDown(t[1..], deviceCount, attempted))
  }

  lemma NoDevices(failed: int)
    ensures DevicesDown([], 0, failed)
  {
  }

  lemma DeviceSkipped(t: seq<Try>, i: nat, failed: int)
    requires DevicesDown(t, i, failed)
    ensures i == failed ==> DevicesDown(t, i + 1, failed)
  {
  }

  lemma DevicesMore(t: seq<Try>, more: seq<Try>, n: int, failed: int)
    requires DevicesDown(t, n, failed)
    ensures DevicesDown(t + more, n, failed)
  {
    forall i | 0 <= i < n && i != failed ensures DeviceDown(t + more, i) {
      assert DeviceDown(t, i);
      var k :| 0 <= k < |t| && Denied(t[k], OpenVINO) && t[k].device == i;
      assert (t + more)[k] == t[k];
    }
  }

  lemma DeviceTried(t: seq<Try>, i: nat, failed: int, a: Attempt)
    requires DevicesDown(t, i, failed) && a.rung == OpenVINO && (a.options ==> !a.session.Untried?)
    ensures DevicesDown(t + TriesOf(a, i), i, failed)
    ensures !Won(a) ==> DevicesDown(t + TriesOf(a, i), i + 1, failed)
    ensures Won(a) ==> (t + TriesOf(a, i))[|t + TriesOf(a, i)| - 1] == Sess(OpenVINO, i, true)
  {
    var u := t + TriesOf(a, i);
    DevicesMore(t, TriesOf(a, i), i, failed);
    if !Won(a) {
      assert Denied(u[|u| - 1], OpenVINO) && u[|u| - 1].device == i;
      assert DeviceDown(u, i);
    }
  }

  lemma TriedMore(t: seq<Try>, more: seq<Try>, deviceCount: nat, attempted: int)
    requires DevicesTried(t, deviceCount, attempted)
    ensures DevicesTried(t + more, deviceCount, attempted)
  {
    assert (t + more)[1..] == t[1..] + more;
    if t[0].ok && deviceCount > 1 {
      DevicesMore(t[1..], more, deviceCount, attempted);
    }
  }

  // The last thing asked was a session on the provider, and it came up.
  predicate Opened(t: seq<Try>, p: Provider) { t != [] && t[|t| - 1].Sess? && t[|t| - 1].p == p && t[|t| - 1].ok }

  lemma OpenedMore(t: seq<Try>, more: seq<Try>, p: Provider)
    requires Opened(more, p)
    ensures Opened(t + more, p)
  {
  }

  lemma WalkOpened(log: seq<Attempt>, device: int)
    requires log != [] && Won(log[|log| - 1]) && log[|log| - 1].session.Up?
    ensures Opened(LogTries(log, device), log[|log| - 1].rung)
  {
  }

  // No session came up on the provider: not on the options held nor, for OpenVINO, on any other device.
  ghost predicate SessionRefused(t: seq<Try>, p: Provider, deviceCount: nat, attempted: int) {
    && t != [] && t[0].Sess? && Denied(t[0], p)
    && (p == OpenVINO ==> DevicesTried(t[1..], deviceCount, attempted))
  }

  lemma RefusedMore(t: seq<Try>, more: seq<Try>, p: Provider, deviceCount: nat, attempted: int)
    ensures SessionRefused(t, p, deviceCount, attempted) ==> SessionRefused(t + more, p, deviceCount, attempted)
  {
    if SessionRefused(t, p, deviceCount, attempted) && p == OpenVINO {
      TriedMore(t[1..], more, deviceCount, attempted);
      assert (t + more)[1..] == t[1..] + more;
    }
  }

  lemma FirstRefused(p: Provider, device: int)
    ensures FailedInOrder([Sess(p, device, false)], [p])
  {
    FailedNext([], Sess(p, device, false), [], p);
    assert [] + [Sess(p, device, false)] == [Sess(p, device, false)] && [] + [p] == [p];
  }

  lemma CPURefused(device: int)
    ensures FailedInOrder([Opts(CPU, device, false)], [CPU])
    ensures FailedInOrder([Opts(CPU, device, true)] + [Sess(CPU, device, false)], [CPU])
  {
    FailedNext([], Opts(CPU, device, false), [], CPU);
    FailedNext([Opts(CPU, device, true)], Sess(CPU, device, false), [], CPU);
    assert [] + [Opts(CPU, device, false)] == [Opts(CPU, device, false)] && [] + [CPU] == [CPU];
  }

  // Why an opening fails: the runtime did not come up, the model was not read, or the providers failed. An explicit
  // request had its options or its session refused, the latter on every device; an "auto" request every rung and the
  // CPU, in order.
  ghost predicate GivenUp(request: Request, t: seq<Try>, deviceCount: nat, attempted: int) {
    || t == [Init(false)]
    || (t != [] && t[|t| - 1] == Load(false))
    || (t != [] && t[0] == Init(true) && RequestRefused(request, t[1..], deviceCount, attempted))
  }

  ghost predicate RequestRefused(request: Request, t: seq<Try>, deviceCount: nat, attempted: int) {
    match request
    case Auto => FailedInOrder(t, LADDER + [CPU])
    case Explicit(p) =>
      || (|t| == 1 && t[0].Opts? && Denied(t[0], p))
      || (|t| > 2 && t[0].Opts? && t[0].p == p && t[0].ok && t[1] == Load(true) && SessionRefused(t[2..], p, deviceCount, attempted))
  }

  lemma OptionsGivenUp(request: Request, chosen: seq<Try>, deviceCount: nat, attempted: int)
    requires request.Explicit? ==> |chosen| == 1 && chosen[0].Opts? && Denied(chosen[0], request.p)
    requires request.Auto? ==> FailedInOrder(chosen, LADDER + [CPU])
    ensures GivenUp(request, [Init(true)] + chosen, deviceCount, attempted)
  {
    assert ([Init(true)] + chosen)[1..] == chosen;
  }

  // The model was not read, or no session came up on the provider and, for "auto", on any behind it.
  ghost predicate LoadRefused(request: Request, index: int, t: seq<Try>, p: Provider, deviceCount: nat, attempted: int)
    requires -1 <= index < |LADDER|
  {
    || t == [Load(false)]
    || (t != [] && t[0] == Load(true) && SessionRefused(t[1..], p, deviceCount, attempted)
        && (request.Auto? ==> FailedInOrder(t[1..], (if index < 0 then [] else LADDER[index..]) + [CPU])))
  }

  lemma LoadGivenUp(request: Request, chosen: seq<Try>, index: int, more: seq<Try>, deviceCount: nat, attempted: int)
    requires -1 <= index < |LADDER|
    requires request.Explicit? ==> |chosen| == 1 && chosen[0].Opts? && chosen[0].p == request.p && chosen[0].ok
    requires request.Auto? ==> FailedInOrder(chosen, if index < 0 then LADDER else LADDER[..index])
    requires LoadRefused(request, index, more,
      if request.Explicit? then request.p else if index < 0 then CPU else LADDER[index], deviceCount, attempted)
    ensures GivenUp(request, [Init(true)] + (chosen + more), deviceCount, attempted)
  {
    hide FailedInOrder, SessionRefused;
    var t := chosen + more;
    assert ([Init(true)] + t)[1..] == t;
    if more == [Load(false)] {
      assert ([Init(true)] + t)[|t|] == Load(false);
      return;
    }
    var rest := more[1..];
    assert more == [Load(true)] + rest && t == chosen + [Load(true)] + rest;
    match request
    case Auto =>
      var first, last := if index < 0 then LADDER else LADDER[..index], (if index < 0 then [] else LADDER[index..]) + [CPU];
      FailedMore(chosen, [Load(true)], first);
      FailedConcat(chosen + [Load(true)], first, rest, last);
      assert first + last == LADDER + [CPU];
    case Explicit(p) =>
      assert t[2..] == rest;
      SessionRefusedSome(rest, p, deviceCount, attempted);
  }

  lemma SessionRefusedSome(t: seq<Try>, p: Provider, deviceCount: nat, attempted: int)
    requires SessionRefused(t, p, deviceCount, attempted)
    ensures t != []
  {
  }

  // What the devices tried before device n left behind.
  function DeviceReasons(n: int, failed: int): seq<Reason>
    decreases n
  {
    if n <= 0 then [] else DeviceReasons(n - 1, failed) + if n - 1 == failed then [] else [Device(n - 1)]
  }

  lemma {:induction false} DevicesAreNoRungs(reasons: seq<Reason>, n: int, failed: int)
    ensures OfRungs(reasons + DeviceReasons(n, failed)) == OfRungs(reasons)
    decreases n
  {
    if n <= 0 {
      assert reasons + [] == reasons;
    } else {
      DevicesAreNoRungs(reasons, n - 1, failed);
      var before := reasons + DeviceReasons(n - 1, failed);
      OfRungsSnoc(before, Device(n - 1));
      assert n - 1 != failed ==> reasons + DeviceReasons(n, failed) == before + [Device(n - 1)];
      assert n - 1 == failed ==> reasons + DeviceReasons(n, failed) == before;
    }
  }

  lemma NoReasons()
    ensures RungReasons([]) == [] && OfRungs([]) == []
  {
  }

  lemma ReasonStep(log: seq<Attempt>, a: Attempt)
    ensures RungReasons(log + [a]) == RungReasons(log) + if Won(a) then [] else [Rung(a.rung)]
    ensures forall reasons :: OfRungs(reasons + [Rung(a.rung)]) == OfRungs(reasons) + [Rung(a.rung)]
  {
    RungReasonsSnoc(log, a);
    forall reasons ensures OfRungs(reasons + [Rung(a.rung)]) == OfRungs(reasons) + [Rung(a.rung)] {
      OfRungsSnoc(reasons, Rung(a.rung));
    }
  }

  // ---------------------------------------------------------------------
  // The embedder's provider state
  // ---------------------------------------------------------------------

  class Ladder {
    const ort: Ort
    const deviceID: int
    const intraOpThreads: int
    ghost const base: set<nat>        // handles of others
    var sessOpts: Option<nat>
    var provider: Provider
    var runner: bool                  // the dedicated thread
    var fallbackPending: bool
    var sessions: nat                 // live sessions: eager, batch and buckets
    var reasons: seq<Reason>
    var closed: bool

    constructor (ort: Ort, deviceID: int, intraOpThreads: int)
      requires ort.Valid()
      ensures this.ort == ort && base == ort.live && this.intraOpThreads == intraOpThreads && this.deviceID == deviceID
      ensures sessions == 0 && reasons == [] && !runner && !closed && sessOpts == None
    {
      this.ort, this.deviceID, this.intraOpThreads, base := ort, deviceID, intraOpThreads, ort.live;
      sessOpts, provider, runner, fallbackPending, sessions, reasons, closed := None, CPU, false, false, 0, [], false;
    }

    function Held(): set<nat>
      reads `sessOpts
    {
      match sessOpts case None => {} case Some(h) => {h}
    }

    // The one live handle is the one held, it belongs to the recorded provider, and the dedicated
    // thread runs exactly for hardware.
    ghost predicate Owns()
      reads `sessOpts, `provider, `runner, ort`live, ort`dead, ort`next, ort`provider, ort`devices
    {
      && ort.Valid() && ort.live == base + Held() && Held() !! base
      && (match sessOpts case None => provider == CPU case Some(h) => ort.provider[h] == provider)
      && runner == (provider != CPU)
    }

    // A session on the held options; a failed attempt has released its own tensors.
    method NewSession() returns (ok: bool)
      requires Owns()
      modifies ort`faults, ort`asked
      ensures Owns() && ort.Later() && ort.faults == old(ort.faults) + if ok then 0 else 1
      ensures ort.asked == old(ort.asked) + [Sess(provider, ort.preferred, ok)]
    {
      ok := ort.CreateSession(provider);
    }

    // What is refused was refused by the runtime, or asks OpenVINO for a device it cannot select.
    twostate predicate Refused()
      reads this, ort
    {
      ort.faults > old(ort.faults) || deviceID != 0
    }

    // Destroy the held options, commit the new ones and their provider.
    method Install(rung: Provider, opts: Option<nat>)
      requires ort.Valid() && ort.live == base + Held() + (match opts case None => {} case Some(h) => {h}) && Held() !! base
      requires rung != CPU && runner
      requires opts.Some? && opts.value !in base + Held() && ort.provider[opts.value] == rung
      modifies `sessOpts, `provider, ort`live, ort`dead
      ensures Owns() && ort.Later() && sessOpts == opts && provider == rung
    {
      if sessOpts.Some? {
        ort.Destroy(sessOpts.value);
      }
      sessOpts := opts;
      provider := rung;
    }

    method InstallRung(rung: Provider) returns (built: bool)
      requires Owns() && runner && rung != CPU
      modifies `sessOpts, `provider, ort`next, ort`live, ort`dead, ort`provider, ort`devices, ort`faults, ort`asked
      ensures Owns() && ort.Later() && ort.preferred == old(ort.preferred)
      ensures ort.asked == old(ort.asked) + [Opts(rung, ort.preferred, built)]
      ensures if built then provider == rung && sessOpts.Some? else provider == old(provider) && sessOpts == old(sessOpts) && Refused()
      ensures built && rung == OpenVINO ==>
        ort.devices[sessOpts.value] == NarrowOpenVINODevices(AllDevices(ort.deviceCount), ort.preferred)
    {
      var opts;
      opts, built := ort.BuildSessionOptions(rung, deviceID, intraOpThreads);
      if built {
        Install(rung, opts);
      }
    }

    // One attempt: build options for the rung, install them, bring a session up; a failure gives one reason.
    method TryRung(rung: Provider, reason: Reason) returns (a: Attempt)
      requires Owns() && runner && rung != CPU
      modifies `sessOpts, `provider, `reasons, ort`next, ort`live, ort`dead, ort`provider, ort`devices, ort`faults, ort`asked
      ensures Owns() && ort.Later() && runner && a.rung == rung && ort.preferred == old(ort.preferred)
      ensures reasons == old(reasons) + if Won(a) then [] else [reason]
      ensures a.options ==> !a.session.Untried?
      ensures if a.options then provider == rung && sessOpts.Some? else provider == old(provider) && sessOpts == old(sessOpts)
      ensures a.options && rung == OpenVINO ==>
        ort.devices[sessOpts.value] == NarrowOpenVINODevices(AllDevices(ort.deviceCount), ort.preferred)
      ensures !Won(a) ==> Refused()
      ensures ort.asked == old(ort.asked) + TriesOf(a, ort.preferred)
    {
      hide Owns;
      var built := InstallRung(rung);
      if !built {
        reasons := reasons + [reason];
        return Attempt(rung, false, Untried);
      }
      var up := NewSession();
      if !up {
        reasons := reasons + [reason];
      }
      return Attempt(rung, true, if up then Up else Down);
    }

    // The rungs from the given one on, each with its options and a session, until one comes up.
    method AdvanceAutoLadderSession(from: nat) returns (ok: bool, ghost log: seq<Attempt>)
      requires Owns() && runner && from <= |LADDER|
      modifies `sessOpts, `provider, `reasons, ort
      ensures Owns() && ort.Later() && runner
      ensures Walked(log, from) && OfRungs(reasons) == OfRungs(old(reasons)) + RungReasons(log)
      ensures ok <==> log != [] && Won(log[|log| - 1])
      ensures ok ==> provider == log[|log| - 1].rung && log[|log| - 1].session.Up?
      ensures !ok ==> from + |log| == |LADDER|
      ensures ort.asked == old(ort.asked) + LogTries(log, old(ort.preferred)) && ort.preferred == old(ort.preferred)
      ensures !ok ==> FailedInOrder(LogTries(log, old(ort.preferred)), LADDER[from..])
    {
      hide Owns, OfRungs, RungReasons, FailedInOrder, LogTries, TriesOf, Walked;
      log := [];
      NoTries(old(ort.preferred));
      assert ort.asked + [] == ort.asked && LADDER[from..from] == [];
      WalkedNone(from);
      assert OfRungs(reasons) == OfRungs(reasons) + RungReasons([]) by { NoReasons(); }
      for k := from to |LADDER|
        invariant Owns() && ort.Later() && runner
        invariant |log| == k - from && Walked(log, from) && (log != [] ==> !Won(log[|log| - 1]))
        invariant OfRungs(reasons) == OfRungs(old(reasons)) + RungReasons(log)
        invariant ort.asked == old(ort.asked) + LogTries(log, old(ort.preferred)) && ort.preferred == old(ort.preferred)
        invariant FailedInOrder(LogTries(log, old(ort.preferred)), LADDER[from..k])
      {
        var rung := LADDER[k];
        ghost var before := reasons;
        var a := TryRung(rung, Rung(rung));
        ReasonStep(log, a);
        assert before + [] == before && RungReasons(log) + [] == RungReasons(log);
        RungTried(log, a, from, k, old(ort.preferred));
        log := log + [a];
        if a.options && a.session.Up? {
          return true, log;
        }
      }
      assert LADDER[from..|LADDER|] == LADDER[from..];
      return false, log;
    }

    // The plugin's other devices, one at a time; the winner is remembered, and forgotten when there is none.
    method RetryOpenVINODevices(deviceCount: nat, failed: int) returns (ok: bool, ghost tries: seq<Try>)
      requires Owns() && provider == OpenVINO && runner && deviceCount <= ort.deviceCount
      modifies `sessOpts, `provider, `reasons, ort
      ensures Owns() && ort.Later() && provider == OpenVINO && runner
      ensures ok ==> reasons == old(reasons) + DeviceReasons(ort.preferred, failed)
      ensures ok ==> ort.preferred != failed && 0 <= ort.preferred < deviceCount
      ensures ok ==> sessOpts.Some? && sessOpts.value in ort.devices && ort.devices[sessOpts.value] == [ort.preferred]
      ensures !ok ==> ort.preferred == -1 && reasons == old(reasons) + DeviceReasons(deviceCount, failed)
      ensures ort.asked == old(ort.asked) + tries && DevicesDown(tries, if ok then ort.preferred else deviceCount, failed)
      ensures ok ==> tries != [] && tries[|tries| - 1] == Sess(OpenVINO, ort.preferred, true)
    {
      hide Owns, DevicesDown;
      tries := [];
      NoDevices(failed);
      for i := 0 to deviceCount
        invariant Owns() && ort.Later() && provider == OpenVINO && runner
        invariant reasons == old(reasons) + DeviceReasons(i, failed)
        invariant ort.asked == old(ort.asked) + tries && DevicesDown(tries, i, failed)
      {
        DeviceSkipped(tries, i, failed);
        if i == failed {
          continue;
        }
        Prefer(i);
        var a := TryRung(OpenVINO, Device(i));
        DeviceTried(tries, i, failed, a);
        tries := tries + TriesOf(a, i);
        if a.options && a.session.Up? {
          OwnedDevice();
          return true, tries;
        }
      }
      Prefer(-1);
      return false, tries;
    }

    // openVINOPreferredDevice.Store
    method Prefer(i: int)
      requires Owns()
      modifies ort`preferred
      ensures Owns() && ort.Later() && ort.preferred == i
    {
      ort.preferred := i;
    }

    lemma OwnedDevice()
      requires Owns() && sessOpts.Some? && provider == OpenVINO
      ensures sessOpts.value in ort.devices
    {
    }

    // The device count, and no retry when there is at most one device.
    method RetryOpenVINOSession() returns (ok: bool, ghost tries: seq<Try>)
      requires Owns() && provider == OpenVINO && runner
      modifies `sessOpts, `provider, `reasons, ort
      ensures Owns() && ort.Later() && provider == OpenVINO && runner && OfRungs(reasons) == OfRungs(old(reasons))
      ensures ort.asked == old(ort.asked) + tries
      ensures !ok ==> DevicesTried(tries, ort.deviceCount, Attempted(old(ort.preferred)))
      ensures ok ==> Opened(tries, OpenVINO)
    {
      hide DevicesDown;
      var n := ort.CountDevices();
      tries := [Count(n.Some?)];
      if n.None? || n.value <= 1 {
        return false, tries;
      }
      var attempted := if ort.preferred >= 0 then ort.preferred else 0;
      ghost var more;
      ok, more := RetryOpenVINODevices(n.value, attempted);
      assert ([Count(true)] + more)[1..] == more;
      tries := tries + more;
      DevicesAreNoRungs(old(reasons), if ok then ort.preferred else ort.deviceCount, attempted);
    }

    method StopRunner()
      requires runner
      modifies `runner
      ensures !runner
    {
      runner := false;
    }

    // Releases what the aborted initialization holds.
    method Cleanup()
      requires ort.Valid() && ort.live == base + Held() && Held() !! base
      modifies `runner, ort`live, ort`dead
      ensures ort.Valid() && ort.Later() && ort.live == base && !runner
    {
      if sessOpts.Some? {
        ort.Destroy(sessOpts.value);
      }
      if runner {
        StopRunner();
      }
    }

    // The options stage of an "auto" request: the first rung whose options build.
    method OptionsStage() returns (index: int, ghost log: seq<Attempt>)
      requires ort.Valid() && ort.live == base && sessOpts == None && reasons == [] && runner
      modifies `sessOpts, `provider, `reasons, ort`next, ort`live, ort`dead, ort`provider, ort`devices, ort`faults, ort`asked
      ensures ort.Valid() && ort.Later() && runner && -1 <= index < |LADDER|
      ensures Failures(log, if index < 0 then |LADDER| else index) && reasons == RungReasons(log)
      ensures index >= 0 ==> Owns() && provider == LADDER[index] && sessOpts.Some?
      ensures index < 0 ==> ort.live == base && sessOpts == None
      ensures index != 0 ==> Refused()
      ensures ort.preferred == old(ort.preferred)
      ensures ort.asked == old(ort.asked) + LogTries(log, ort.preferred) + if index < 0 then [] else [Opts(LADDER[index], ort.preferred, true)]
      ensures FailedInOrder(LogTries(log, ort.preferred), LADDER[..if index < 0 then |LADDER| else index])
    {
      hide RungReasons, Failures, FailedInOrder, LogTries;
      log := [];
      NoTries(ort.preferred);
      assert ort.asked + [] + [] == ort.asked;
      NoFailures();
      for i := 0 to |LADDER|
        invariant ort.Valid() && ort.Later() && ort.live == base && sessOpts == None && runner
        invariant Failures(log, i) && reasons == RungReasons(log) && (i > 0 ==> Refused())
        invariant ort.preferred == old(ort.preferred) && ort.asked == old(ort.asked) + LogTries(log, ort.preferred) + []
        invariant FailedInOrder(LogTries(log, ort.preferred), LADDER[..i])
      {
        TriesSnoc(log, Attempt(LADDER[i], false, Untried), ort.preferred, LADDER[..i]);
        assert LADDER[..i + 1] == LADDER[..i] + [LADDER[i]];
        FailuresSnoc(log, i);
        var opts, built := ort.BuildSessionOptions(LADDER[i], deviceID, intraOpThreads);
        sessOpts := opts;
        if built {
          provider := LADDER[i];
          return i, log;
        }
        reasons := reasons + [Rung(LADDER[i])];
        log := log + [Attempt(LADDER[i], false, Untried)];
      }
      return -1, log;
    }

    // Options for the CPU; the thread is already retired.
    method CommitCPU() returns (ok: bool)
      requires ort.Valid() && ort.live == base && !runner
      modifies `sessOpts, `provider, ort`next, ort`live, ort`dead, ort`provider, ort`devices, ort`faults, ort`asked
      ensures ort.Valid() && ort.Later() && !runner && provider == CPU
      ensures if ok then Owns() else ort.live == base && sessOpts == None
      ensures !ok ==> Refused()
      ensures ort.preferred == old(ort.preferred) && ort.asked == old(ort.asked) + [Opts(CPU, ort.preferred, ok)]
    {
      provider := CPU;
      var opts, built := ort.BuildSessionOptions(CPU, deviceID, intraOpThreads);
      sessOpts := opts;
      ok := built;
    }

    method BuildExplicit(p: Provider) returns (ok: bool)
      requires ort.Valid() && ort.live == base && sessOpts == None && runner == (p != CPU)
      modifies `sessOpts, `provider, `runner, ort`next, ort`live, ort`dead, ort`provider, ort`devices, ort`faults, ort`asked
      ensures ort.Valid() && ort.Later() && provider == p
      ensures if ok then Owns() else ort.live == base && !runner
      ensures !ok ==> Refused()
      ensures ort.preferred == old(ort.preferred) && ort.asked == old(ort.asked) + [Opts(p, ort.preferred, ok)]
    {
      provider := p;
      var opts, built := ort.BuildSessionOptions(p, deviceID, intraOpThreads);
      sessOpts := opts;
      if !built {
        Cleanup();
      }
      ok := built;
    }

    method Abandon()
      requires Owns()
      modifies `runner, ort`live, ort`dead
      ensures ort.Valid() && ort.Later() && ort.live == base && !runner
    {
      Cleanup();
    }

    // The eager session of fixed mode: the held options, the plugin's other devices, the remaining rungs, the CPU.
    method EagerSession(request: Request, index: int, ghost failed: seq<Attempt>)
        returns (ok: bool, ghost log: seq<Attempt>, ghost tries: seq<Try>)
      requires Owns() && -1 <= index < |LADDER| && (index >= 0 ==> provider == LADDER[index])
      requires match request
               case Explicit(p) => provider == p && index == -1 && reasons == []
               case Auto =>
                 && Failures(failed, if index < 0 then |LADDER| else index)
                 && reasons == RungReasons(failed)
                 && (index < 0 ==> provider == CPU)
      modifies `sessOpts, `provider, `reasons, `runner, ort
      ensures ort.Valid() && ort.Later()
      ensures if ok then Owns() else ort.live == base && !runner
      ensures ok && request.Explicit? ==> provider == request.p && OfRungs(reasons) == []
      ensures ok && request.Auto? ==> OfRungs(reasons) == RungReasons(log) && AutoWinner(log, provider)
      ensures ok && request.Auto? && provider != CPU ==> log != [] && log[|log| - 1].session.Up?
      ensures !ok ==> Refused()
      ensures ort.asked == old(ort.asked) + tries
      // it fails only when the held provider failed, with its devices, and for "auto" every rung behind it and the CPU
      ensures !ok ==> SessionRefused(tries, old(provider), ort.deviceCount, Attempted(old(ort.preferred)))
      ensures !ok && request.Auto? ==> FailedInOrder(tries, (if index < 0 then [] else LADDER[index..]) + [CPU])
      ensures ok ==> Opened(tries, provider)
    {
      hide Owns, OfRungs, RungReasons, Failures, AutoWinner, FailedInOrder, DevicesTried, SessionRefused, Opened;
      log := failed;
      RungsOnly(failed);
      NoReasons();
      OwnsMeans();
      ghost var p, device := provider, ort.preferred;
      ok, tries := SessionOnProvider();
      OwnsMeans();
      if ok {
        if index >= 0 {
          WonAt(failed, index, Attempt(provider, true, Up));
          log := log + [Attempt(provider, true, Up)];
        } else if request.Auto? {
          LostAll(failed);
        }
        return;
      }
      if request.Explicit? || index < 0 {
        Abandon();
        assert [] + [CPU] == [CPU];
        return;
      }
      ghost var more;
      ok, log, more := NextRungs(index, failed);
      RefusedMore(tries, more, p, ort.deviceCount, Attempted(device));
      if !ok {
        FailedConcat(tries, [p], more, LADDER[index + 1..] + [CPU]);
        assert [p] + (LADDER[index + 1..] + [CPU]) == LADDER[index..] + [CPU];
      } else {
        OpenedMore(tries, more, provider);
      }
      tries := tries + more;
    }

    // A session on the held options or, for OpenVINO, on another of the plugin's devices.
    method SessionOnProvider() returns (ok: bool, ghost tries: seq<Try>)
      requires Owns()
      modifies `sessOpts, `provider, `reasons, ort
      ensures Owns() && ort.Later() && provider == old(provider) && OfRungs(reasons) == OfRungs(old(reasons))
      ensures ort.asked == old(ort.asked) + tries && (!ok ==> ort.faults > old(ort.faults))
      ensures !ok ==> SessionRefused(tries, provider, ort.deviceCount, Attempted(old(ort.preferred)))
      ensures !ok ==> FailedInOrder(tries, [provider])
      ensures ok ==> Opened(tries, provider)
    {
      hide Owns, OfRungs, DevicesTried;
      ghost var device := ort.preferred;
      OwnsMeans();
      ok := NewSession();
      tries := [Sess(provider, device, ok)];
      if ok {
        return;
      }
      FirstRefused(provider, device);
      if provider == OpenVINO {
        ghost var more;
        ok, more := RetryOpenVINOSession();
        FailedMore(tries, more, [provider]);
        assert (tries + more)[1..] == more;
        tries := tries + more;
      }
    }

    // After the winning options brought up no session: the remaining rungs, then the CPU.
    method NextRungs(index: nat, ghost failed: seq<Attempt>) returns (ok: bool, ghost log: seq<Attempt>, ghost tries: seq<Try>)
      requires Owns() && index < |LADDER| && provider == LADDER[index]
      requires Failures(failed, index) && OfRungs(reasons) == RungReasons(failed)
      modifies `sessOpts, `provider, `reasons, `runner, ort
      ensures ort.Valid() && ort.Later()
      ensures if ok then Owns() else ort.live == base && !runner
      ensures ok ==> OfRungs(reasons) == RungReasons(log) && AutoWinner(log, provider)
      ensures ok && provider != CPU ==> log != [] && log[|log| - 1].session.Up?
      ensures !ok ==> Refused()
      ensures ort.asked == old(ort.asked) + tries && (!ok ==> FailedInOrder(tries, LADDER[index + 1..] + [CPU]))
      ensures ok ==> Opened(tries, provider)
    {
      hide Owns, OfRungs, RungReasons, Failures, AutoWinner, FailedInOrder, LogTries, Opened;
      ghost var a := Attempt(provider, true, Down);
      reasons := reasons + [Rung(provider)];
      ReasonStep(failed, a);
      OwnsMeans();
      ghost var more;
      ghost var device := ort.preferred;
      ok, more := AdvanceAutoLadderSession(index + 1);
      tries := LogTries(more, device);
      AdvancedFrom(failed, index, a, more, provider);
      log := failed + [a] + more;
      OwnsMeans();
      if ok {
        WalkOpened(more, device);
        return;
      }
      ghost var last;
      ok, last := FallBackToCPU();
      if !ok {
        FailedConcat(tries, LADDER[index + 1..], last, [CPU]);
      } else {
        OpenedMore(tries, last, CPU);
      }
      tries := tries + last;
    }

    method FallBackToCPU() returns (ok: bool, ghost tries: seq<Try>)
      requires Owns()
      modifies `sessOpts, `provider, `runner, ort
      ensures ort.Valid() && ort.Later()
      ensures if ok then Owns() && provider == CPU else ort.live == base && !runner
      ensures !ok ==> Refused()
      ensures ort.asked == old(ort.asked) + tries && (if ok then Opened(tries, CPU) else FailedInOrder(tries, [CPU]))
    {
      hide FailedInOrder, Owns;
      Abandon();
      ok := CommitCPU();
      tries := [Opts(CPU, ort.preferred, ok)];
      CPURefused(ort.preferred);
      if !ok {
        return;
      }
      ok := NewSession();
      tries := tries + [Sess(CPU, ort.preferred, ok)];
      if !ok {
        Abandon();
      }
    }

    lemma OwnsMeans()
      requires Owns()
      ensures ort.Valid() && (runner <==> provider != CPU)
    {
    }

    // What a successful start leaves behind, by what was asked for.
    ghost predicate Started(request: Request, buckets: bool, log: seq<Attempt>)
      reads this
    {
      match request
      case Explicit(p) => provider == p && !fallbackPending && OfRungs(reasons) == []
      case Auto =>
        && OfRungs(reasons) == RungReasons(log) && AutoWinner(log, provider)
        && (fallbackPending <==> provider != CPU)
        && (!buckets && provider != CPU ==> log != [] && log[|log| - 1].session.Up?)
    }

    // The options stage: the asked provider, or the first rung, or the CPU.
    method SelectOptions(request: Request) returns (ok: bool, index: int, ghost log: seq<Attempt>, ghost tries: seq<Try>)
      requires ort.Valid() && ort.live == base && sessOpts == None && reasons == []
      requires runner == (request.Auto? || request.p != CPU)
      modifies `sessOpts, `provider, `reasons, `runner, ort
      ensures ort.Valid() && ort.Later() && -1 <= index < |LADDER|
      ensures if ok then Owns() else ort.live == base && !runner && Refused()
      ensures ok && index >= 0 ==> provider == LADDER[index]
      ensures ok ==> match request
                     case Explicit(p) => provider == p && index == -1 && reasons == []
                     case Auto =>
                       && Failures(log, if index < 0 then |LADDER| else index)
                       && reasons == RungReasons(log)
                       && (index < 0 ==> provider == CPU)
      ensures ort.asked == old(ort.asked) + tries && ort.preferred == old(ort.preferred)
      ensures request.Explicit? ==> tries == [Opts(request.p, ort.preferred, ok)]
      ensures request.Auto? ==> FailedInOrder(tries, if !ok then LADDER + [CPU] else if index < 0 then LADDER else LADDER[..index])
    {
      hide Owns, RungReasons, Failures, FailedInOrder, LogTries;
      ok, index, log := true, -1, [];
      if request.Explicit? {
        ok := BuildExplicit(request.p);
        tries := [Opts(request.p, ort.preferred, ok)];
        return;
      }
      index, log := OptionsStage();
      tries := LogTries(log, ort.preferred);
      assert LADDER[..|LADDER|] == LADDER;
      if index == -1 {
        StopRunner();
        ok := CommitCPU();
        FailedMore(tries, [Opts(CPU, ort.preferred, ok)], LADDER);
        if !ok {
          FailedNext(tries, Opts(CPU, ort.preferred, false), LADDER, CPU);
        }
        tries := tries + [Opts(CPU, ort.preferred, ok)];
      } else {
        OwnsMeans();
        FailedMore(tries, [Opts(LADDER[index], ort.preferred, true)], LADDER[..index]);
        tries := tries + [Opts(LADDER[index], ort.preferred, true)];
      }
    }

    // NewEmbedder, from the runtime on.
    method Open(request: Request, buckets: bool) returns (ok: bool, ghost log: seq<Attempt>, ghost tries: seq<Try>)
      requires ort.Valid() && ort.live == base && sessOpts == None && reasons == [] && !runner && sessions == 0 && !closed
      modifies this, ort
      ensures ort.Valid() && ort.Later()
      ensures !ok ==> ort.live == base && !runner
      ensures ok ==> Owns() && Started(request, buckets, log) && sessions == (if buckets then 0 else 1) && !closed
      ensures !ok ==> Refused()
      ensures ort.asked == old(ort.asked) + tries
      ensures !ok ==> GivenUp(request, tries, ort.deviceCount, Attempted(old(ort.preferred)))
      ensures ok && !buckets ==> Opened(tries, provider)
    {
      hide Owns, OfRungs, RungReasons, Failures, AutoWinner, FailedInOrder, SessionRefused, LoadRefused, Started, Opened;
      log := [];
      NoReasons();
      runner := request.Auto? || request.p != CPU;
      var initialized := ort.Initialize();
      tries := [Init(initialized)];
      if !initialized {
        runner := false;
        return false, log, tries;
      }
      var index;
      ghost var chosen;
      ok, index, log, chosen := SelectOptions(request);
      tries := tries + chosen;
      if !ok {
        OptionsGivenUp(request, chosen, ort.deviceCount, Attempted(ort.preferred));
        return false, log, tries;
      }
      ghost var device := ort.preferred;
      ghost var more;
      ok, log, more := LoadAndFinish(request, buckets, index, log);
      Concluded(request, chosen, index, more, ok, buckets, provider, ort.deviceCount, Attempted(device));
      tries := tries + more;
    }

    method LoadAndFinish(request: Request, buckets: bool, index: int, ghost failed: seq<Attempt>)
        returns (ok: bool, ghost log: seq<Attempt>, ghost tries: seq<Try>)
      requires Owns() && -1 <= index < |LADDER| && (index >= 0 ==> provider == LADDER[index]) && sessions == 0 && !closed
      requires match request
               case Explicit(p) => provider == p && index == -1 && reasons == []
               case Auto =>
                 && Failures(failed, if index < 0 then |LADDER| else index)
                 && reasons == RungReasons(failed)
                 && (index < 0 ==> provider == CPU)
      modifies this, ort
      ensures ort.Valid() && ort.Later()
      ensures !ok ==> ort.live == base && !runner && Refused()
      ensures ok ==> Owns() && Started(request, buckets, log) && sessions == (if buckets then 0 else 1) && !closed
      ensures ort.asked == old(ort.asked) + tries
      ensures !ok ==> LoadRefused(request, index, tries, old(provider), ort.deviceCount, Attempted(old(ort.preferred)))
      ensures ok && !buckets ==> Opened(tries, provider)
    {
      hide Owns, OfRungs, RungReasons, Failures, AutoWinner, FailedInOrder, SessionRefused, Opened;
      OwnsMeans();
      log := failed;
      var loaded := ort.LoadModel();
      tries := [Load(loaded)];
      if !loaded {
        Abandon();
        return false, log, tries;
      }
      ghost var more;
      ok, log, more := Finish(request, buckets, index, log);
      assert ([Load(true)] + more)[1..] == more;
      if ok && !buckets {
        OpenedMore(tries, more, provider);
      }
      tries := tries + more;
      if ok {
        sessions := if buckets then 0 else 1;
        fallbackPending := request.Auto? && provider != CPU;
      }
    }

    // The eager session, except in bucket mode.
    method Finish(request: Request, buckets: bool, index: int, ghost failed: seq<Attempt>)
        returns (ok: bool, ghost log: seq<Attempt>, ghost tries: seq<Try>)
      requires Owns() && -1 <= index < |LADDER| && (index >= 0 ==> provider == LADDER[index])
      requires match request
               case Explicit(p) => provider == p && index == -1 && reasons == []
               case Auto =>
                 && Failures(failed, if index < 0 then |LADDER| else index)
                 && reasons == RungReasons(failed)
                 && (index < 0 ==> provider == CPU)
      modifies `sessOpts, `provider, `reasons, `runner, ort
      ensures ort.Valid() && ort.Later()
      ensures if ok then Owns() else ort.live == base && !runner
      ensures ok && request.Explicit? ==> provider == request.p && OfRungs(reasons) == []
      ensures ok && request.Auto? ==> OfRungs(reasons) == RungReasons(log) && AutoWinner(log, provider)
      ensures ok && request.Auto? && !buckets && provider != CPU ==> log != [] && log[|log| - 1].session.Up?
      ensures !ok ==> Refused()
      ensures ort.asked == old(ort.asked) + tries && (buckets ==> ok) && (ok && !buckets ==> Opened(tries, provider))
      ensures !ok ==> SessionRefused(tries, old(provider), ort.deviceCount, Attempted(old(ort.preferred)))
      ensures !ok && request.Auto? ==> FailedInOrder(tries, (if index < 0 then [] else LADDER[index..]) + [CPU])
    {
      hide Owns, OfRungs, RungReasons, Failures, FailedInOrder, SessionRefused;
      OwnsMeans();
      tries := [];
      if !buckets {
        ok, log, tries := EagerSession(request, index, failed);
        return;
      }
      NoReasons();
      RungsOnly(failed);
      ok, log := true, failed;
      if index >= 0 {
        WonAt(failed, index, Attempt(provider, true, Untried));
        log := log + [Attempt(provider, true, Untried)];
      } else if request.Auto? {
        LostAll(failed);
      }
    }

    // ---------------------------------------------------------------------
    // Lazily created sessions
    // ---------------------------------------------------------------------

    // An "auto" request still on hardware, before any session is live.
    predicate CanDegradeToCPU()
      reads `fallbackPending, `sessions
    {
      fallbackPending && sessions == 0
    }

    // The CPU options come first: without them everything stays as it was.
    method DegradeToCPU() returns (ok: bool)
      requires Owns() && provider != CPU
      modifies `sessOpts, `provider, `runner, `fallbackPending, ort`next, ort`live, ort`dead, ort`provider, ort`devices, ort`faults, ort`asked
      ensures Owns() && ort.Later()
      ensures ok ==> provider == CPU && !fallbackPending
      ensures !ok ==> provider == old(provider) && sessOpts == old(sessOpts) && runner == old(runner)
      ensures !ok ==> fallbackPending == old(fallbackPending) && ort.live == old(ort.live)
      ensures !ok ==> Refused()
      ensures ort.preferred == old(ort.preferred) && ort.asked == old(ort.asked) + [Opts(CPU, ort.preferred, ok)]
    {
      var opts, built := ort.BuildSessionOptions(CPU, deviceID, intraOpThreads);
      if !built {
        return false;
      }
      if sessOpts.Some? {
        ort.Destroy(sessOpts.value);
      }
      StopRunner();
      sessOpts := opts;
      provider := CPU;
      fallbackPending := false;
      ok := true;
    }

    // A session on the current provider, on the plugin's other devices, and, for an "auto" request with
    // no session yet, on the remaining rungs and finally on the CPU.
    method NewSessionWithFallback() returns (ok: bool, ghost log: seq<Attempt>, ghost tries: seq<Try>)
      requires Owns() && (fallbackPending ==> provider != CPU)
      modifies this, ort
      ensures Owns() && ort.Later() && (fallbackPending ==> provider != CPU && old(fallbackPending))
      ensures sessions == old(sessions) && closed == old(closed)
      ensures !old(CanDegradeToCPU()) ==> provider == old(provider) && log == []
      ensures Walked(log, LadderIndex(old(provider)) + 1) && (log != [] ==> OfRungs(reasons) == RungReasons(log))
      ensures log != [] && Won(log[|log| - 1]) ==> ok && provider == log[|log| - 1].rung && log[|log| - 1].session.Up?
      ensures ok && provider != old(provider) ==>
        (log != [] && Won(log[|log| - 1])) || (provider == CPU && LadderIndex(old(provider)) + 1 + |log| == |LADDER|)
      ensures !ok ==> Refused()
      ensures ort.asked == old(ort.asked) + tries
      // it fails only when the provider failed, with its devices, and before the first session of an "auto" request
      // every rung behind it and the CPU
      ensures !ok ==> SessionRefused(tries, old(provider), ort.deviceCount, Attempted(old(ort.preferred)))
      ensures !ok && old(CanDegradeToCPU()) ==> FailedInOrder(tries, LADDER[LadderIndex(old(provider))..] + [CPU])
      ensures ok ==> Opened(tries, provider)
    {
      hide Owns, OfRungs, RungReasons, FailedInOrder, SessionRefused, LogTries, DevicesTried, Opened;
      log := [];
      reasons := [];
      OwnsMeans();
      NoReasons();
      ghost var p, device := provider, ort.preferred;
      ok, tries := SessionOnProvider();
      OwnsMeans();
      if ok {
        return;
      }
      if !CanDegradeToCPU() {
        return;
      }
      ghost var more;
      ok, log, more := NextProviders();
      BehindProvider(tries, more, p, ok, provider, ort.deviceCount, Attempted(device));
      tries := tries + more;
    }

    // The rungs behind the provider, then the CPU.
    method NextProviders() returns (ok: bool, ghost log: seq<Attempt>, ghost tries: seq<Try>)
      requires Owns() && provider != CPU
      modifies `sessOpts, `provider, `runner, `reasons, `fallbackPending, ort
      ensures Owns() && ort.Later() && (fallbackPending ==> provider != CPU && old(fallbackPending))
      ensures Walked(log, LadderIndex(old(provider)) + 1) && OfRungs(reasons) == RungReasons(log)
      ensures log != [] && Won(log[|log| - 1]) ==> ok && provider == log[|log| - 1].rung && log[|log| - 1].session.Up?
      ensures ok && provider != old(provider) ==>
        (log != [] && Won(log[|log| - 1])) || (provider == CPU && LadderIndex(old(provider)) + 1 + |log| == |LADDER|)
      ensures !ok ==> Refused()
      ensures ort.asked == old(ort.asked) + tries
      ensures !ok ==> FailedInOrder(tries, LADDER[LadderIndex(old(provider)) + 1..] + [CPU])
      ensures ok ==> Opened(tries, provider)
    {
      hide Owns, OfRungs, RungReasons, FailedInOrder, LogTries, Opened;
      OwnsMeans();
      NoReasons();
      reasons := [];
      assert [] + RungReasons([]) == [];
      ghost var p, device := provider, ort.preferred;
      ok, log := AdvanceAutoLadderSession(LadderIndex(provider) + 1);
      assert [] + RungReasons(log) == RungReasons(log);
      OwnsMeans();
      tries := LogTries(log, device);
      if ok {
        WalkOpened(log, device);
        return;
      }
      ghost var last;
      ok, last := OnTheCPU();
      if !ok {
        FailedConcat(tries, LADDER[LadderIndex(p) + 1..], last, [CPU]);
      } else {
        OpenedMore(tries, last, CPU);
      }
      tries := tries + last;
    }

    method OnTheCPU() returns (ok: bool, ghost tries: seq<Try>)
      requires Owns() && provider != CPU
      modifies `sessOpts, `provider, `runner, `fallbackPending, ort
      ensures Owns() && ort.Later() && (ok ==> provider == CPU) && (provider == CPU || provider == old(provider))
      ensures provider == CPU ==> !fallbackPending
      ensures provider != CPU ==> fallbackPending == old(fallbackPending)
      ensures !ok ==> Refused()
      ensures ort.asked == old(ort.asked) + tries && (if ok then Opened(tries, CPU) else FailedInOrder(tries, [CPU]))
    {
      hide Owns, FailedInOrder;
      ok := DegradeToCPU();
      tries := [Opts(CPU, ort.preferred, ok)];
      CPURefused(ort.preferred);
      if ok {
        ok := NewSession();
        tries := tries + [Sess(CPU, ort.preferred, ok)];
      }
    }

    // Creates the batch session or the session of one bucket.
    method EnsureSession() returns (ok: bool, ghost tries: seq<Try>)
      requires Owns() && (fallbackPending ==> provider != CPU)
      modifies this, ort
      ensures Owns() && ort.Later() && (fallbackPending ==> provider != CPU && old(fallbackPending))
      ensures sessions == old(sessions) + (if ok then 1 else 0) && closed == old(closed)
      ensures !old(CanDegradeToCPU()) ==> provider == old(provider)
      ensures !ok ==> Refused() && SessionRefused(tries, old(provider), ort.deviceCount, Attempted(old(ort.preferred)))
      ensures !ok && old(CanDegradeToCPU()) ==> FailedInOrder(tries, LADDER[LadderIndex(old(provider))..] + [CPU])
      ensures ort.asked == old(ort.asked) + tries && (ok ==> Opened(tries, provider))
    {
      hide FailedInOrder, SessionRefused, Opened;
      ghost var log;
      ok, log, tries := NewSessionWithFallback();
      if ok {
        sessions := sessions + 1;
      }
    }

    // Releases everything; a second call does nothing.
    method Close()
      requires closed || Owns()
      modifies this, ort
      ensures closed
      ensures if old(closed) then ort.live == old(ort.live) && sessOpts == old(sessOpts)
              else ort.Valid() && ort.Later() && ort.live == base && sessOpts == None && !runner && sessions == 0
    {
      if closed {
        return;
      }
      closed := true;
      sessions := 0;
      if sessOpts.Some? {
        ort.Destroy(sessOpts.value);
        sessOpts := None;
      }
      runner := false;
    }
  }

  // Whatever is asked for and however often sessions are wanted: after closing, every handle the embedder
  // ever built is dead, and the handles of others are as before.
  method Lifetime(ort: Ort, request: Request, buckets: bool, deviceID: int, intraOpThreads: int, wanted: nat)
    requires ort.Valid()
    modifies ort
    ensures ort.Valid() && ort.live == old(ort.live)
    ensures forall h :: old(ort.next) <= h < ort.next ==> h in ort.dead
  {
    var e := new Ladder(ort, deviceID, intraOpThreads);
    var ok;
    ghost var log, tries;
    ok, log, tries := e.Open(request, buckets);
    if !ok {
      return;
    }
    for k := 0 to wanted
      invariant e.Owns() && ort.Later() && (e.fallbackPending ==> e.provider != CPU) && !e.closed
      invariant request.Explicit? ==> e.provider == request.p && !e.fallbackPending
    {
      var got;
      got, tries := e.EnsureSession();
    }
    e.Close();
  }
}
