/**
 * The device status and the recovery timer as a state machine driven by the
 * driver's power callbacks. The callbacks of DeviceContext are each proved to
 * take one Step of this machine; the lemmas below are about traces of steps.
 */
module PowerState {

  datatype DeviceStatus = D3 | D0ActiveAndUnconfigured | D0ActiveAndConfigured

  /** What the callbacks observe of a device: its status and whether a recovery retry is pending. */
  datatype Machine = Machine(status: DeviceStatus, recoveryArmed: bool)

  /** One callback, with the outcome of its enable handshake where it makes one. */
  datatype PowerEvent =
    | D0Entered
    | BringUp(handshakeOk: bool)
    | RecoveryRetry(handshakeOk: bool)
    | D0Exited

  function Step(m: Machine, e: PowerEvent): (next: Machine) {
    match e
    case D0Entered => m.(status := D0ActiveAndUnconfigured)
    case BringUp(ok) =>
      if ok then m.(status := D0ActiveAndConfigured) else m.(recoveryArmed := true)
    case RecoveryRetry(ok) =>
      Machine(if ok then D0ActiveAndConfigured else m.status, false)
    case D0Exited => m.(status := D3)
  }

  function Run(m: Machine, events: seq<PowerEvent>): (final: Machine)
    decreases |events|
  {
    if events == [] then m else Run(Step(m, events[0]), events[1..])
  }

  /** The timer callback runs only while a retry is pending; every other callback may run at any time. */
  predicate Enabled(m: Machine, e: PowerEvent) {
    e.RecoveryRetry? ==> m.recoveryArmed
  }

  predicate Feasible(m: Machine, events: seq<PowerEvent>)
    decreases |events|
  {
    events == [] || (Enabled(m, events[0]) && Feasible(Step(m, events[0]), events[1..]))
  }

  predicate HandshakeSucceeded(e: PowerEvent) {
    (e.BringUp? || e.RecoveryRetry?) && e.handshakeOk
  }

  predicate NoRetryBetween(events: seq<PowerEvent>, lo: int, hi: int)
    requires 0 <= lo <= hi <= |events|
  {
    forall k :: lo <= k < hi ==> !events[k].RecoveryRetry?
  }

  lemma {:induction false} RunAppend(m: Machine, a: seq<PowerEvent>, b: seq<PowerEvent>)
    ensures Run(m, a + b) == Run(Run(m, a), b)
    decreases |a|
  {
    if a == [] {
      assert a + b == b;
    } else {
      assert (a + b)[0] == a[0];
      assert (a + b)[1..] == a[1..] + b;
      RunAppend(Step(m, a[0]), a[1..], b);
    }
  }

  lemma RunSnoc(m: Machine, p: seq<PowerEvent>, e: PowerEvent)
    ensures Run(m, p + [e]) == Step(Run(m, p), e)
  {
    RunAppend(m, p, [e]);
  }

  /** The configured status is reached only through a successful enable handshake. */
  lemma {:induction false} ConfiguredOnlyByHandshake(m: Machine, events: seq<PowerEvent>)
    requires m.status != D0ActiveAndConfigured
    requires Run(m, events).status == D0ActiveAndConfigured
    ensures exists i :: 0 <= i < |events| && HandshakeSucceeded(events[i])
    decreases |events|
  {
    if events != [] {
      if !HandshakeSucceeded(events[0]) {
        ConfiguredOnlyByHandshake(Step(m, events[0]), events[1..]);
        var i :| 0 <= i < |events[1..]| && HandshakeSucceeded(events[1..][i]);
        assert HandshakeSucceeded(events[i + 1]);
      }
    }
  }

  /** Callbacks that fail their handshake change neither the status nor, once armed, the timer. */
  lemma {:induction false} FailedHandshakesKeepStatus(m: Machine, events: seq<PowerEvent>)
    requires forall i :: 0 <= i < |events| ==> events[i] == BringUp(false)
    ensures Run(m, events).status == m.status
    ensures m.recoveryArmed ==> Run(m, events) == m
    decreases |events|
  {
    if events != [] {
      FailedHandshakesKeepStatus(Step(m, events[0]), events[1..]);
    }
  }

  /** Once in D3, the device stays in D3 until D0 entry or a successful handshake. */
  lemma {:induction false} StaysInD3UntilWoken(m: Machine, events: seq<PowerEvent>)
    requires m.status == D3
    requires forall i :: 0 <= i < |events| ==> events[i] != D0Entered && !HandshakeSucceeded(events[i])
    ensures Run(m, events).status == D3
    decreases |events|
  {
    if events != [] {
      StaysInD3UntilWoken(Step(m, events[0]), events[1..]);
    }
  }

  /**
   * A pending retry is always owed to a failed bring-up: either it was
   * already pending at the start and no retry has run since, or some failed
   * bring-up armed it and no retry has run after that.
   */
  lemma {:induction false} ArmedByFailedBringUp(m: Machine, events: seq<PowerEvent>)
    requires Run(m, events).recoveryArmed
    ensures (m.recoveryArmed && NoRetryBetween(events, 0, |events|))
         || exists j :: 0 <= j < |events| && events[j] == BringUp(false) && NoRetryBetween(events, j + 1, |events|)
    decreases |events|
  {
    if events != [] {
      var n := |events| - 1;
      var p, e := events[..n], events[n];
      assert events == p + [e];
      RunSnoc(m, p, e);
      if e == BringUp(false) {
        assert NoRetryBetween(events, n + 1, |events|);
      } else {
        assert !e.RecoveryRetry?;
        assert Run(m, p).recoveryArmed;
        ArmedByFailedBringUp(m, p);
        if m.recoveryArmed && NoRetryBetween(p, 0, |p|) {
          assert NoRetryBetween(events, 0, |events|);
        } else {
          var j :| 0 <= j < |p| && p[j] == BringUp(false) && NoRetryBetween(p, j + 1, |p|);
          assert events[j] == BringUp(false);
          assert NoRetryBetween(events, j + 1, |events|);
        }
      }
    }
  }

  lemma {:induction false} FeasiblePrefix(m: Machine, events: seq<PowerEvent>, i: nat)
    requires Feasible(m, events) && i < |events|
    ensures Enabled(Run(m, events[..i]), events[i])
    decreases i
  {
    if i == 0 {
      assert events[..0] == [];
    } else {
      FeasiblePrefix(Step(m, events[0]), events[1..], i - 1);
      assert events[..i][0] == events[0];
      assert events[..i][1..] == events[1..][..i - 1];
    }
  }

  /**
   * The recovery timer retries once per failed bring-up: in any feasible
   * trace from a state with no pending retry, every retry is preceded by a
   * failed bring-up with no other retry in between.
   */
  lemma RetryFollowsFailedBringUp(m: Machine, events: seq<PowerEvent>, i: nat)
    requires !m.recoveryArmed && Feasible(m, events)
    requires i < |events| && events[i].RecoveryRetry?
    ensures exists j :: 0 <= j < i && events[j] == BringUp(false) && NoRetryBetween(events, j + 1, i)
  {
    FeasiblePrefix(m, events, i);
    var p := events[..i];
    ArmedByFailedBringUp(m, p);
    var j :| 0 <= j < |p| && p[j] == BringUp(false) && NoRetryBetween(p, j + 1, |p|);
    assert events[j] == BringUp(false);
    assert NoRetryBetween(events, j + 1, i);
  }

  /**
   * D0 exit does not disarm the recovery timer: a bring-up that fails, then
   * D0 exit, then a retry that succeeds, ends configured although the last
   * power transition was to D3.
   */
  lemma RetryAfterD0ExitConfigures(s: DeviceStatus)
    ensures Feasible(Machine(s, false), [BringUp(false), D0Exited, RecoveryRetry(true)])
    ensures Run(Machine(s, false), [BringUp(false), D0Exited, RecoveryRetry(true)])
         == Machine(D0ActiveAndConfigured, false)
  {
  }
}
