// The one-ahead pipeline: embedding/pipeline.go:27-65. One producer and one consumer meet at an
// unbuffered channel; every interleaving of their steps is a run of the machine below.
module Pipeline {
  import opened Prelude

  datatype Error<E> = ProduceError(e: E) | ContextError

  // Where the producer stands: calling produce(i), at the select with item i, about to send its
  // result, about to close the channel, gone.
  datatype Producer<T, E> =
    | Producing(i: nat)
    | Offering(i: nat, v: T)
    | Reporting(err: Option<Error<E>>)
    | Closing
    | Exited

  // Ranging over the items, waiting in stop, or through with stop.
  datatype Consumer<E> = Consuming | Joining | Stopped(err: Option<Error<E>>)

  datatype State<T, E> = State(
    count: nat,
    producer: Producer<T, E>,
    consumer: Consumer<E>,
    cancelled: bool,
    closed: bool,
    done: Option<Option<Error<E>>>,  // the one-slot result channel
    made: seq<T>,                    // results of the produce calls so far
    received: seq<T>,                // items the consumer has taken
    failed: Option<E>)               // the error of a produce call, if one failed

  // The head of the producer's loop.
  function At<T, E>(i: nat, count: nat): Producer<T, E> {
    if i < count then Producing(i) else Reporting(None)
  }

  function Start<T, E>(count: nat): State<T, E> {
    State(count, At(0, count), Consuming, false, false, None, [], [], None)
  }

  // ---------------------------------------------------------------------
  // Steps
  // ---------------------------------------------------------------------

  datatype Step<T, E> =
    | Makes(v: T) | Fails(e: E) | HandsOver | GivesUp | Reports | Closes
    | ParentCancels | Stops | Joins

  predicate Enabled<T, E>(s: State<T, E>, step: Step<T, E>) {
    match step
    case Makes(_) => s.producer.Producing?
    case Fails(_) => s.producer.Producing?
    case HandsOver => s.producer.Offering? && s.consumer.Consuming?
    case GivesUp => s.producer.Offering? && s.cancelled
    case Reports => s.producer.Reporting? && s.done.None?
    case Closes => s.producer.Closing?
    case ParentCancels => !s.cancelled
    case Stops => s.consumer.Consuming?
    case Joins => s.consumer.Joining? && s.done.Some?
  }

  function Take<T, E>(s: State<T, E>, step: Step<T, E>): State<T, E>
    requires Enabled(s, step)
  {
    match step
    case Makes(v) => s.(producer := Offering(s.producer.i, v), made := s.made + [v])
    case Fails(e) => s.(producer := Reporting(Some(ProduceError(e))), failed := Some(e))
    case HandsOver => s.(received := s.received + [s.producer.v], producer := At(s.producer.i + 1, s.count))
    case GivesUp => s.(producer := Reporting(Some(ContextError)))
    case Reports => s.(done := Some(s.producer.err), producer := Closing)
    case Closes => s.(closed := true, producer := Exited)
    case ParentCancels => s.(cancelled := true)
    case Stops => s.(cancelled := true, consumer := Joining)
    case Joins => s.(consumer := Stopped(s.done.value), done := None)
  }

  ghost predicate IsRun<T, E>(run: seq<State<T, E>>, steps: seq<Step<T, E>>) {
    && |run| == |steps| + 1 && run[0] == Start(run[0].count)
    && forall k :: 0 <= k < |steps| ==> Enabled(run[k], steps[k]) && run[k + 1] == Take(run[k], steps[k])
  }

  // ---------------------------------------------------------------------
  // What every interleaving keeps
  // ---------------------------------------------------------------------

  // What stop will return, once the producer has left its loop.
  function Outcome<T, E>(s: State<T, E>): Option<Error<E>> {
    if |s.received| == s.count then None
    else if s.failed.Some? then Some(ProduceError(s.failed.value))
    else Some(ContextError)
  }

  predicate InLoop<T, E>(s: State<T, E>) { s.producer.Producing? || s.producer.Offering? }

  predicate Inv<T(==), E(==)>(s: State<T, E>) {
    && s.received <= s.made
    && |s.made| <= |s.received| + 1
    && |s.made| <= s.count
    && (s.closed <==> s.producer.Exited?)
    && (!s.consumer.Consuming? ==> s.cancelled)
    && (s.failed.Some? ==> |s.received| < s.count)
    && (match s.producer
        case Producing(i) => i == |s.received| == |s.made| < s.count
        case Offering(i, v) => i == |s.received| == |s.made| - 1 && s.made[i] == v
        case Reporting(err) => err == Outcome(s)
        case _ => true)
    && (InLoop(s) ==> s.failed.None?)
    && (!InLoop(s) && Outcome(s) == Some(ContextError) ==> s.cancelled)
    && (InLoop(s) || s.producer.Reporting? ==> s.done.None? && !s.consumer.Stopped?)
    && (s.done.Some? ==> s.done.value == Outcome(s) && !s.consumer.Stopped?)
    && (s.consumer.Stopped? ==> s.consumer.err == Outcome(s))
    && ((s.producer.Closing? || s.producer.Exited?) && !s.consumer.Stopped? ==> s.done.Some?)
  }

  lemma StepKeeps<T, E>(s: State<T, E>, step: Step<T, E>)
    requires Inv(s) && Enabled(s, step)
    ensures Inv(Take(s, step))
  {
  }

  lemma {:induction false} RunKeeps<T, E>(run: seq<State<T, E>>, steps: seq<Step<T, E>>, k: nat)
    requires IsRun(run, steps) && k < |run|
    ensures Inv(run[k]) && run[k].count == run[0].count
  {
    if k > 0 {
      RunKeeps(run, steps, k - 1);
      StepKeeps(run[k - 1], steps[k - 1]);
    }
  }

  // What was made or received is never taken back.
  lemma {:induction false} HistoryGrows<T, E>(run: seq<State<T, E>>, steps: seq<Step<T, E>>, j: nat, k: nat)
    requires IsRun(run, steps) && j <= k < |run|
    ensures run[j].made <= run[k].made && run[j].received <= run[k].received
  {
    if j < k {
      HistoryGrows(run, steps, j, k - 1);
    }
  }

  // The consumer has exactly the first results, in order; at most one finished item waits,
  // and call i + 1 begins only after item i was taken.
  lemma InOrderOneAhead<T, E>(run: seq<State<T, E>>, steps: seq<Step<T, E>>, k: nat)
    requires IsRun(run, steps) && k < |run|
    ensures var s := run[k];
            && s.received <= s.made
            && |s.made| <= |s.received| + 1
            && (s.producer.Producing? ==> s.producer.i == |s.made| && s.received == s.made)
            && (k < |steps| && steps[k].HandsOver? ==>
                  |s.received| < |s.made| && run[k + 1].received == s.received + [s.made[|s.received|]])
  {
    RunKeeps(run, steps, k);
  }

  // An item handed over was made by the call of that number, and stays the item of that number in everything the
  // consumer has received from then on.
  lemma ItemStands<T, E>(run: seq<State<T, E>>, steps: seq<Step<T, E>>, j: nat, k: nat)
    requires IsRun(run, steps) && j < k < |run| && steps[j].HandsOver?
    ensures var i := |run[j].received|;
            && i < |run[j].made| && run[j].producer == Offering(i, run[j].made[i])
            && i < |run[k].received| && run[k].received[i] == run[j].made[i]
  {
    RunKeeps(run, steps, j);
    HistoryGrows(run, steps, j + 1, k);
  }

  // A produce error is reported exactly when a produce call failed, and it is that error.
  predicate Tells<E(==)>(err: Option<Error<E>>, failed: Option<E>) {
    match err
    case Some(ProduceError(e)) => failed == Some(e)
    case _ => failed == None
  }

  // stop returns nil exactly when every item was taken, the producer's own error whenever it failed,
  // and otherwise the error of a context that was cancelled; the producer is past its last call.
  lemma StopReports<T, E>(run: seq<State<T, E>>, steps: seq<Step<T, E>>, k: nat)
    requires IsRun(run, steps) && k < |run| && run[k].consumer.Stopped?
    ensures var s := run[k];
            && (s.consumer.err == None <==> |s.received| == s.count)
            && Tells(s.consumer.err, s.failed)
            && (s.consumer.err == Some(ContextError) ==> s.cancelled)
            && (s.producer.Closing? || s.producer.Exited?)
  {
    RunKeeps(run, steps, k);
  }

  // The range loop ends only when the producer is gone.
  lemma ClosedMeansOver<T, E>(run: seq<State<T, E>>, steps: seq<Step<T, E>>, k: nat)
    requires IsRun(run, steps) && k < |run| && run[k].closed
    ensures run[k].producer.Exited? && (Outcome(run[k]) == None ==> run[k].received == run[k].made)
  {
    RunKeeps(run, steps, k);
  }

  // ---------------------------------------------------------------------
  // No deadlock
  // ---------------------------------------------------------------------

  // The producer's own step, when produce has returned with the given answer.
  function ProducerStep<T, E>(s: State<T, E>, answer: Step<T, E>): Step<T, E>
  {
    match s.producer
    case Producing(_) => answer
    case Offering(_, _) => if s.consumer.Consuming? then HandsOver else GivesUp
    case Reporting(_) => Reports
    case _ => Closes
  }

  function Measure<T, E>(s: State<T, E>): nat {
    (match s.producer
     case Producing(i) => 2 * (if i < s.count then s.count - i else 0) + 3
     case Offering(i, _) => 2 * (if i < s.count then s.count - i else 0) + 2
     case Reporting(_) => 2
     case Closing => 1
     case Exited => 0)
    + (match s.consumer case Consuming => 2 case Joining => 1 case Stopped(_) => 0)
    + (if s.cancelled then 0 else 1)
  }

  lemma StepShrinks<T, E>(s: State<T, E>, step: Step<T, E>)
    requires Inv(s) && Enabled(s, step)
    ensures Measure(Take(s, step)) < Measure(s)
  {
  }

  // While the consumer waits inside stop, either the join is ready or the producer has a step of its own,
  // whatever produce answers: stop cannot block forever.
  lemma StopNeverBlocks<T, E>(s: State<T, E>, answer: Step<T, E>)
    requires Inv(s) && s.consumer.Joining? && (answer.Makes? || answer.Fails?)
    ensures Enabled(s, Joins) || Enabled(s, ProducerStep(s, answer))
  {
  }

  // While the consumer waits for an item, either the channel is closed or the producer has a step.
  lemma ReceiveNeverBlocks<T, E>(s: State<T, E>, answer: Step<T, E>)
    requires Inv(s) && s.consumer.Consuming? && (answer.Makes? || answer.Fails?)
    ensures s.closed || Enabled(s, ProducerStep(s, answer))
  {
  }

  // After stop only the closing of the channel is left to the producer.
  lemma AfterStop<T, E>(s: State<T, E>, step: Step<T, E>)
    requires Inv(s) && s.consumer.Stopped? && Enabled(s, step)
    ensures step.Closes? && Take(s, step).producer.Exited?
  {
  }

  // Every interleaving is finite.
  lemma {:induction false} RunsAreBounded<T, E>(run: seq<State<T, E>>, steps: seq<Step<T, E>>, k: nat)
    requires IsRun(run, steps) && k < |run|
    ensures Measure(run[k]) + k <= 2 * run[0].count + 6
  {
    RunKeeps(run, steps, k);
    if k > 0 {
      RunsAreBounded(run, steps, k - 1);
      RunKeeps(run, steps, k - 1);
      StepShrinks(run[k - 1], steps[k - 1]);
    }
  }

  // ---------------------------------------------------------------------
  // The consumer's two calls
  // ---------------------------------------------------------------------

  datatype Answer<T, E> = Value(v: T) | Failure(e: E)

  // Receiving and stopping drive the machine under an arbitrary scheduler. Call i answers produce(i);
  // once the context is cancelled it may answer with the cancellation instead.
  class OneAheadPipeline<T(==), E(==)> {
    const produce: nat -> Answer<T, E>
    const cancellation: E
    var s: State<T, E>

    constructor (count: nat, produce: nat -> Answer<T, E>, cancellation: E)
      ensures Valid() && s == Start(count) && this.produce == produce && this.cancellation == cancellation
    {
      this.produce := produce;
      this.cancellation := cancellation;
      s := Start(count);
    }

    ghost predicate Valid()
      reads this
    {
      && Inv(s)
      && (forall k :: 0 <= k < |s.made| ==> produce(k) == Value(s.made[k]))
      && (s.failed.Some? ==>
            (s.cancelled && s.failed.value == cancellation)
            || (|s.made| < s.count && produce(|s.made|) == Failure(s.failed.value)))
    }

    // One move of the producer.
    method Move()
      requires Valid() && !s.producer.Exited? && !(s.producer.Offering? && !s.cancelled)
      modifies this
      ensures Valid() && Measure(s) < Measure(old(s))
      ensures s.received == old(s.received) && s.consumer == old(s.consumer) && s.count == old(s.count)
      ensures s.cancelled == old(s.cancelled)
    {
      var step;
      if s.producer.Producing? {
        var notices: bool := *;
        if s.cancelled && notices {
          step := Fails(cancellation);
        } else {
          match produce(s.producer.i) {
            case Value(v) => step := Makes(v);
            case Failure(e) => step := Fails(e);
          }
        }
      } else if s.producer.Offering? {
        step := GivesUp;
      } else {
        step := if s.producer.Reporting? then Reports else Closes;
      }
      StepKeeps(s, step);
      StepShrinks(s, step);
      s := Take(s, step);
    }

    // The next item, or the end of the channel.
    method Receive() returns (item: Option<T>)
      requires Valid() && s.consumer.Consuming?
      modifies this
      ensures Valid() && s.consumer.Consuming? && s.count == old(s.count)
      ensures item.Some? ==> produce(|old(s.received)|) == Value(item.value) && s.received == old(s.received) + [item.value]
      ensures item.None? ==> s.closed && s.received == old(s.received)
    {
      while true
        invariant Valid() && s.consumer.Consuming? && s.received == old(s.received) && s.count == old(s.count)
        decreases Measure(s)
      {
        if s.closed {
          return None;
        }
        var outer: bool := *;
        if outer && !s.cancelled {
          StepKeeps(s, ParentCancels);
          StepShrinks(s, ParentCancels);
          s := Take(s, ParentCancels);
          continue;
        }
        var chance: bool := *;
        if s.producer.Offering? && (chance || !s.cancelled) {
          var v := s.producer.v;
          StepKeeps(s, HandsOver);
          s := Take(s, HandsOver);
          return Some(v);
        }
        Move();
      }
    }

    // Cancels production and joins the producer; a second call returns the same answer.
    method Stop() returns (err: Option<Error<E>>)
      requires Valid() && !s.consumer.Joining?
      modifies this
      ensures Valid() && s.consumer == Stopped(err) && s.received == old(s.received) && s.count == old(s.count)
      ensures err == None <==> |s.received| == s.count
      ensures Tells(err, s.failed)
      ensures s.producer.Closing? || s.producer.Exited?
      ensures old(s.closed) ==> s.cancelled && s.failed == old(s.failed) && (err == Some(ContextError) ==> old(s.cancelled))
      ensures old(s.consumer.Stopped?) ==> s == old(s)
    {
      if s.consumer.Stopped? {
        return s.consumer.err;
      }
      StepKeeps(s, Stops);
      s := Take(s, Stops);
      while s.done.None?
        invariant Valid() && s.consumer.Joining? && s.received == old(s.received) && s.count == old(s.count)
        invariant old(s.closed) ==> s.done.Some? && s == old(s).(cancelled := true, consumer := Joining)
        decreases Measure(s)
      {
        Move();
      }
      StepKeeps(s, Joins);
      s := Take(s, Joins);
      err := s.consumer.err;
    }
  }
}
