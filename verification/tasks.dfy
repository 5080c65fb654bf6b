/** `TaskTimeoutExtensions.WithTimeout`: a caller awaits a shared task, racing it
    against a fresh delay. Scheduling is abstract. A shared task is a value that
    settles once, at some moment, with one outcome, or never; the race is decided by
    comparing that moment with the end of the delay. */
module Tasks {
  import opened Wrappers
  import opened Exceptions

  /** How a finished task ended. */
  datatype Outcome<+T> = RanToCompletion(value: T) | Faulted(exception: Exception) | Canceled

  /** A single-assignment task observed over time: it settles once, at `time`, with
      `outcome`, or never settles. Every reader sees this same value. */
  datatype Future<+T> = Never | SettlesAt(time: nat, outcome: Outcome<T>)

  /** Which argument `Task.WhenAny(task, Task.Delay(delay))` returned. */
  datatype Race<+T> = TaskFirst(outcome: Outcome<T>) | DelayFirst

  /** Who wins when the task settles at the very moment the delay ends. */
  datatype Side = TaskSide | DelaySide

  /** Whether the task has settled by time `t`. */
  predicate SettledBy<T>(f: Future<T>, t: nat) {
    f.SettlesAt? && f.time <= t
  }

  /** The race of a request that starts at `start` with a delay of `delayMs`.
      `WhenAny` returns the first of its arguments that is already complete when it
      is called, so a task that has settled by `start` wins even against a zero
      delay; otherwise the earlier of the two wins, and `tie` decides a dead heat. */
  function WhenAny<T>(f: Future<T>, start: nat, delayMs: nat, tie: Side): (r: Race<T>)
    ensures r.TaskFirst? ==> f.SettlesAt? && r.outcome == f.outcome && SettledBy(f, start + delayMs)
    ensures SettledBy(f, start) ==> r.TaskFirst?
    ensures r.DelayFirst? ==> f.Never? || (f.time > start && f.time >= start + delayMs)
  {
    match f
    case Never => DelayFirst
    case SettlesAt(t, o) =>
      if t <= start || t < start + delayMs || (t == start + delayMs && tie == TaskSide) then
        TaskFirst(o)
      else
        DelayFirst
  }

  /** `WithTimeout<T>`: the task's own value when it wins; when it wins having
      faulted or been cancelled, `task.Result` throws an `AggregateException` around
      its exception; when the delay wins, a `TimeoutException` with exactly
      `message`. */
  function WithTimeout<T>(race: Race<T>, message: string): (r: Result<T, Exception>)
    ensures r.Success? <==> race.TaskFirst? && race.outcome.RanToCompletion?
    ensures r.Success? ==> r.value == race.outcome.value
    ensures race.DelayFirst? <==> r == Failure(Timeout(message))
    ensures race.TaskFirst? && race.outcome.Faulted? ==> r == Failure(Aggregate(race.outcome.exception))
    ensures race.TaskFirst? && race.outcome.Canceled? ==> r == Failure(Aggregate(TaskCanceled))
  {
    match race
    case DelayFirst => Failure(Timeout(message))
    case TaskFirst(RanToCompletion(v)) => Success(v)
    case TaskFirst(Faulted(e)) => Failure(Aggregate(e))
    case TaskFirst(Canceled) => Failure(Aggregate(TaskCanceled))
  }

  /** The non-generic `WithTimeout`: `task.Wait()` rethrows the task's exception
      inside an `AggregateException`, and a task that ran to completion completes
      the call normally. */
  function WithTimeoutVoid(race: Race<()>, message: string): (r: Result<(), Exception>)
    ensures r.Success? <==> race.TaskFirst? && race.outcome.RanToCompletion?
    ensures race.DelayFirst? <==> r == Failure(Timeout(message))
    ensures race.TaskFirst? && race.outcome.Faulted? ==> r == Failure(Aggregate(race.outcome.exception))
    ensures race.TaskFirst? && race.outcome.Canceled? ==> r == Failure(Aggregate(TaskCanceled))
  {
    if race.DelayFirst? then
      Failure(Timeout(message))
    else
      match race.outcome
      case RanToCompletion(_) => Success(())
      case Faulted(e) => Failure(Aggregate(e))
      case Canceled => Failure(Aggregate(TaskCanceled))
  }

  /** The longest delay `Task.Delay` accepts, in milliseconds (`Int32.MaxValue`). */
  const MaxDelayMs: nat := 2147483647

  /** One caller's wait on the shared task: a fresh delay, a race, the overload's
      result. `Task.Delay` rejects a longer delay with an
      `ArgumentOutOfRangeException` before any race, whatever state the task is in. */
  function AwaitWithTimeout<T>(f: Future<T>, start: nat, delayMs: nat, tie: Side, message: string): (r: Result<T, Exception>)
    ensures delayMs > MaxDelayMs <==> r == Failure(ArgumentOutOfRange("delay"))
    ensures r.Success? ==> f.SettlesAt? && f.outcome == RanToCompletion(r.value) && SettledBy(f, start + delayMs)
  {
    if delayMs > MaxDelayMs then Failure(ArgumentOutOfRange("delay"))
    else WithTimeout(WhenAny(f, start, delayMs, tie), message)
  }

  /** The two overloads agree: the non-generic one fails exactly when the generic one
      does, with the same exception. */
  lemma WithTimeoutOverloadsAgree(race: Race<()>, message: string)
    ensures WithTimeoutVoid(race, message) == WithTimeout(race, message)
  {
    if race.TaskFirst? && race.outcome.RanToCompletion? {
      assert race.outcome.value == ();
    }
  }

  /** A caller times out exactly when its delay is accepted and the task has not
      settled before the delay ends (a dead heat going to the delay side only when
      `tie` says so). */
  lemma AwaitTimesOutIff<T>(f: Future<T>, start: nat, delayMs: nat, tie: Side, message: string)
    ensures AwaitWithTimeout(f, start, delayMs, tie, message) == Failure(Timeout(message))
            <==> delayMs <= MaxDelayMs
                 && (f.Never? || (f.time > start && (f.time > start + delayMs || (f.time == start + delayMs && tie == DelaySide))))
  {
  }

  /** Waiting never changes the task: a caller that timed out leaves it as it was,
      so a later caller whose window covers the moment it settles gets its value.
      The task is an immutable value that no wait can touch, so the earlier timeout
      plays no part in the proof; it is kept to state the scenario. */
  lemma {:induction false} TimedOutCallerLeavesTaskIntact<T>(
    f: Future<T>, v: T, message: string,
    start1: nat, delay1: nat, tie1: Side,
    start2: nat, delay2: nat, tie2: Side)
    requires f.SettlesAt? && f.outcome == RanToCompletion(v)
    requires AwaitWithTimeout(f, start1, delay1, tie1, message) == Failure(Timeout(message))
    requires f.time < start2 + delay2
    ensures delay2 <= MaxDelayMs ==> AwaitWithTimeout(f, start2, delay2, tie2, message) == Success(v)
  {
    assert WhenAny(f, start2, delay2, tie2) == TaskFirst(RanToCompletion(v));
  }

  /** No divergent outcomes: any two callers whose delays are accepted and that do
      not time out see the same result, whatever their start times and delays. */
  lemma CallersAgree<T>(f: Future<T>, message: string,
                        start1: nat, delay1: nat, tie1: Side,
                        start2: nat, delay2: nat, tie2: Side)
    requires !AwaitWithTimeout(f, start1, delay1, tie1, message).Failure?
             || AwaitWithTimeout(f, start1, delay1, tie1, message).error != Timeout(message)
    requires !AwaitWithTimeout(f, start2, delay2, tie2, message).Failure?
             || AwaitWithTimeout(f, start2, delay2, tie2, message).error != Timeout(message)
    ensures delay1 <= MaxDelayMs && delay2 <= MaxDelayMs ==>
              AwaitWithTimeout(f, start1, delay1, tie1, message) == AwaitWithTimeout(f, start2, delay2, tie2, message)
  {
  }

  /** A longer wait from the same start, within the delays `Task.Delay` accepts,
      never turns a result into a timeout. */
  lemma LongerDelayKeepsResult<T>(f: Future<T>, start: nat, delay1: nat, delay2: nat, tie: Side, message: string)
    requires delay1 <= delay2
    requires AwaitWithTimeout(f, start, delay1, tie, message) != Failure(Timeout(message))
    ensures delay2 <= MaxDelayMs ==>
              AwaitWithTimeout(f, start, delay2, tie, message) == AwaitWithTimeout(f, start, delay1, tie, message)
  {
  }

  /** The concrete case: a task that succeeds after 5 s; a 2 s wait started with it
      times out, and a 10 s wait made by a later request, once the first has timed
      out, returns the value. */
  lemma TwoSecondsThenTenSeconds<T>(v: T, message: string, tie: Side)
    ensures AwaitWithTimeout(SettlesAt(5000, RanToCompletion(v)), 0, 2000, tie, message) == Failure(Timeout(message))
    ensures AwaitWithTimeout(SettlesAt(5000, RanToCompletion(v)), 2000, 10000, tie, message) == Success(v)
  {
  }
}
