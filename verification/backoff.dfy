/** The readiness poll of `WaitForAureliaCliServerToAcceptRequests`: after the build
    reports success, HEAD requests go to the dev server until one gets any HTTP
    response. Each attempt has its own timeout; after a failed attempt the loop
    waits a fixed delay and widens the timeout by a fixed step while it is below a
    threshold. There is no overall deadline.

    The HTTP probe itself is abstract: the loop sees only whether an attempt got a
    response. */
module Backoff {

  const InitialTimeoutMs: int := 1000
  const TimeoutStepMs: int := 3000
  /** The timeout widens only while it is below this value. */
  const TimeoutThresholdMs: int := 10000
  const RetryDelayMs: nat := 500

  /** What one HEAD request produced: any HTTP response (even an error status), or a
      connection-level failure (refused, reset, cancelled by the attempt's timeout). */
  datatype Probe = Responded | ConnectFailed

  /** One step of the loop as it acts on the outside world. */
  datatype Action = Send(timeoutMs: int) | Wait(delayMs: nat)

  /** The loop's actions over a run of probe outcomes, and whether it returned. */
  datatype PollRun = PollRun(actions: seq<Action>, ready: bool)

  /** The per-attempt timeout after one more failed attempt. */
  function NextTimeout(t: int): int {
    if t < TimeoutThresholdMs then t + TimeoutStepMs else t
  }

  /** The timeout the loop gives attempt `k` (counting from 0). */
  function AttemptTimeout(k: nat): int {
    if k == 0 then InitialTimeoutMs else NextTimeout(AttemptTimeout(k - 1))
  }

  function Min(a: int, b: int): int {
    if a <= b then a else b
  }

  /** Attempt `k` waits min(1000 + 3000 k, 10000) ms: 1000, 4000, 7000, 10000, 10000, ... */
  lemma {:induction false} AttemptTimeoutClosedForm(k: nat)
    ensures AttemptTimeout(k) == Min(InitialTimeoutMs + TimeoutStepMs * k, TimeoutThresholdMs)
  {
    if k > 0 {
      AttemptTimeoutClosedForm(k - 1);
    }
  }

  /** The timeout starts at 1000, never exceeds 10000, and takes only the four values
      1000, 4000, 7000 and 10000; from the fourth attempt on it stays at 10000. */
  lemma {:induction false} AttemptTimeoutRange(k: nat)
    ensures InitialTimeoutMs <= AttemptTimeout(k) <= TimeoutThresholdMs
    ensures AttemptTimeout(k) in {1000, 4000, 7000, 10000}
    ensures k >= 3 <==> AttemptTimeout(k) == TimeoutThresholdMs
  {
    AttemptTimeoutClosedForm(k);
  }

  /** The timeout never shrinks from one attempt to a later one. */
  lemma {:induction false} AttemptTimeoutMonotone(j: nat, k: nat)
    requires j <= k
    ensures AttemptTimeout(j) <= AttemptTimeout(k)
  {
    AttemptTimeoutClosedForm(j);
    AttemptTimeoutClosedForm(k);
  }

  /** Attempt `i` is the first one that got a response. */
  predicate IsFirstResponse(probes: seq<Probe>, i: int) {
    && 0 <= i < |probes|
    && probes[i] == Responded
    && forall j :: 0 <= j < i ==> probes[j] == ConnectFailed
  }

  /** At most one attempt is the first to get a response. */
  lemma FirstResponseUnique(probes: seq<Probe>, i: int, j: int)
    requires IsFirstResponse(probes, i) && IsFirstResponse(probes, j)
    ensures i == j
  {
  }

  /** The loop run from attempt `k` over the outcomes `probes`: a failed attempt sends
      then waits, and the loop goes round; the first response returns at once. */
  function PollFrom(probes: seq<Probe>, k: nat): (r: PollRun)
    ensures r.ready <==> Responded in probes
    ensures r.ready ==> |r.actions| % 2 == 1 && IsFirstResponse(probes, |r.actions| / 2)
    ensures !r.ready ==> |r.actions| == 2 * |probes|
    ensures forall j :: 0 <= j < |r.actions| ==>
              r.actions[j] == (if j % 2 == 0 then Send(AttemptTimeout(k + j / 2)) else Wait(RetryDelayMs))
    decreases |probes|
  {
    if |probes| == 0 then
      PollRun([], false)
    else if probes[0] == Responded then
      PollRun([Send(AttemptTimeout(k))], true)
    else
      var rest := PollFrom(probes[1..], k + 1);
      assert Responded in probes <==> Responded in probes[1..] by {
        assert probes == [probes[0]] + probes[1..];
      }
      PollRun([Send(AttemptTimeout(k)), Wait(RetryDelayMs)] + rest.actions, rest.ready)
  }

  /** The readiness loop as started by the bridge, at the initial timeout. */
  function Poll(probes: seq<Probe>): PollRun {
    PollFrom(probes, 0)
  }

  /** Extra outcomes after the first response are never looked at. */
  lemma {:induction false} PollIgnoresLaterProbes(probes: seq<Probe>, later: seq<Probe>, k: nat)
    requires Responded in probes
    ensures PollFrom(probes + later, k) == PollFrom(probes, k)
    decreases |probes|
  {
    if probes[0] != Responded {
      assert (probes + later)[1..] == probes[1..] + later;
      assert Responded in probes[1..] by {
        assert probes == [probes[0]] + probes[1..];
      }
      PollIgnoresLaterProbes(probes[1..], later, k + 1);
    }
  }

  /** The loop as the source writes it: `while (true)` with a mutable timeout, here
      fed the outcomes of its attempts in order. It returns whether some attempt got
      a response, how many attempts it made, and the timeout of the last one. */
  method WaitForServer(probes: seq<Probe>) returns (ready: bool, attempts: nat, lastTimeoutMs: int)
    ensures ready <==> Responded in probes
    ensures ready ==> IsFirstResponse(probes, attempts - 1)
    ensures !ready ==> attempts == |probes|
    ensures attempts > 0 ==> lastTimeoutMs == AttemptTimeout(attempts - 1)
    ensures |Poll(probes).actions| == 2 * attempts - (if ready then 1 else 0)
  {
    var timeoutMs := InitialTimeoutMs;
    attempts := 0;
    ready := false;
    lastTimeoutMs := timeoutMs;
    while attempts < |probes| && !ready
      invariant attempts <= |probes|
      invariant forall j :: 0 <= j < attempts - (if ready then 1 else 0) ==> probes[j] == ConnectFailed
      invariant ready ==> attempts > 0 && probes[attempts - 1] == Responded
      invariant !ready ==> timeoutMs == AttemptTimeout(attempts)
      invariant attempts > 0 ==> lastTimeoutMs == AttemptTimeout(attempts - 1)
      decreases |probes| - attempts, !ready
    {
      lastTimeoutMs := timeoutMs;
      if probes[attempts] == Responded {
        ready := true;
      } else {
        timeoutMs := NextTimeout(timeoutMs);
      }
      attempts := attempts + 1;
    }
    var run := Poll(probes);
    if ready {
      assert IsFirstResponse(probes, attempts - 1);
      assert Responded in probes;
      FirstResponseUnique(probes, attempts - 1, |run.actions| / 2);
    } else {
      assert forall j :: 0 <= j < |probes| ==> probes[j] == ConnectFailed;
      assert Responded !in probes;
    }
  }
}
