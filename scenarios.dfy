/**
 * Callers of the device callbacks, using only the contracts: discovery of a
 * listed trackpad, recovery after a failed bring-up, and the drain of three
 * queued requests at D0 exit.
 */
module Scenarios {
  import opened Ntdef
  import opened Optional
  import opened PowerState
  import opened Discovery
  import opened SetFeature
  import opened Drain
  import opened Device
  import opened Clock

  /** A table with one known trackpad and its sentinel; the device reports that trackpad. */
  method DiscoveryScenario(layout: PacketLayout) {
    var entry := TrackpadInfo(0x05AC, 0x0273, 0, 3678, 0, 2479);
    var table := [entry, TrackpadInfo(0, 0, 0, 0, 0, 0)];
    var ctx := new DeviceContext(IoTarget(1), layout);
    var st := PrepareHardware(ctx, table, StatusSuccess, HidDeviceAttributes(0x05AC, 0x0273, 1), None);
    assert st == StatusSuccess;
    assert ctx.trackpadInfo == entry && ctx.reportType == PrecisionTouchpad;

    st := PrepareHardware(ctx, table, StatusSuccess, HidDeviceAttributes(0x05AC, 0x0274, 1), Some(1));
    assert st == StatusNotFound && ctx.reportType == PrecisionTouchpad;

    st := PrepareHardware(ctx, table, StatusSuccess, HidDeviceAttributes(0x05AC, 0x0273, 1), Some(2));
    assert st == StatusSuccess && ctx.reportType == PrecisionTouchpad;
  }

  /** Bring-up fails, the timer is armed for 5 s, the retry succeeds and input issuance starts once. */
  method RecoveryScenario(layout: PacketLayout, t0: CounterQuery, t1: CounterQuery) {
    var ctx := new DeviceContext(IoTarget(1), layout);
    var st := ctx.EvtDeviceD0Entry(t0);
    st := ctx.EvtDeviceSelfManagedIoInitOrRestart(StatusInvalidDeviceState, t1);
    assert st == StatusSuccess;
    assert ctx.status == D0ActiveAndUnconfigured && ctx.lastReportTime == t0.counter;
    assert ctx.recoveryTimer == Some(-50_000_000);
    ctx.PowerRecoveryTimerCallback(StatusSuccess);
    assert ctx.status == D0ActiveAndConfigured && ctx.recoveryTimer == None;
    assert ctx.inputIssueCount == 1;
    assert |ctx.sentPackets| == 2 && RequestsEnable(ctx.sentPackets[0]) && RequestsEnable(ctx.sentPackets[1]);
  }

  /** Power-down with three requests queued completes all three as cancelled, in order. */
  method DrainScenario(layout: PacketLayout, now: CounterQuery) {
    var ctx := new DeviceContext(IoTarget(1), layout);
    var st := ctx.EvtDeviceD0Entry(now);
    var a, b, c := Request(1), Request(2), Request(3);
    ctx.hidQueue := [a, b, c];
    st := ctx.EvtDeviceD0Exit();
    assert st == StatusSuccess && ctx.status == D3 && ctx.hidQueue == [];
    CancelAllInOrder([a, b, c]);
    assert ctx.completed == [Completion(a, StatusCancelled), Completion(b, StatusCancelled), Completion(c, StatusCancelled)];
  }
}
