/**
 * The device context of the SPI trackpad driver and the lifecycle callbacks
 * that change it: creation, hardware preparation, D0 entry and exit,
 * self-managed I/O init/restart, the power-on recovery timer and the
 * set-feature handshake.
 *
 * What the framework and the bus return is passed in: the status each
 * framework call or IOCTL completes with, the attributes the bus reports, the
 * configuration value read (if any), and what the performance-counter query
 * gives.
 */
module Device {
  import opened Ntdef
  import opened Optional
  import opened PowerState
  import opened Discovery
  import opened SetFeature
  import opened Drain
  import opened Clock

  /** The handle of the device's I/O target. */
  datatype IoTarget = IoTarget(handle: nat)

  const RecoveryDelaySeconds: nat := 5

  /** WDF_REL_TIMEOUT_IN_SEC: a relative due time, negative, in units of 100 ns. */
  function RelativeTimeoutInSeconds(seconds: nat): (dueTime: int) {
    -(seconds * 10_000_000)
  }

  // WDF_POWER_DEVICE_STATE
  const WdfPowerDeviceInvalid := 0
  const WdfPowerDeviceD0 := 1
  const WdfPowerDeviceD1 := 2
  const WdfPowerDeviceD2 := 3
  const WdfPowerDeviceD3 := 4
  const WdfPowerDeviceD3Final := 5
  const WdfPowerDevicePrepareForHibernation := 6
  const WdfPowerDeviceMaximum := 7

  const UnknownPowerStateName := "UnKnown Device Power State"

  /** The trace name of a framework device power state. */
  function DbgDevicePowerString(state: int): (name: string)
    ensures WdfPowerDeviceInvalid <= state <= WdfPowerDeviceMaximum <==> name != UnknownPowerStateName
    ensures WdfPowerDeviceInvalid <= state <= WdfPowerDeviceMaximum ==> |name| >= 14 && name[..14] == "WdfPowerDevice"
  {
    if state == WdfPowerDeviceInvalid then "WdfPowerDeviceInvalid"
    else if state == WdfPowerDeviceD0 then "WdfPowerDeviceD0"
    else if state == WdfPowerDeviceD1 then "WdfPowerDeviceD1"
    else if state == WdfPowerDeviceD2 then "WdfPowerDeviceD2"
    else if state == WdfPowerDeviceD3 then "WdfPowerDeviceD3"
    else if state == WdfPowerDeviceD3Final then "WdfPowerDeviceD3Final"
    else if state == WdfPowerDevicePrepareForHibernation then "WdfPowerDevicePrepareForHibernation"
    else if state == WdfPowerDeviceMaximum then "WdfPowerDeviceMaximum"
    else UnknownPowerStateName
  }

  /** Different named power states have different trace names. */
  lemma DbgDevicePowerStringInjective(a: int, b: int)
    requires WdfPowerDeviceInvalid <= a <= WdfPowerDeviceMaximum
    requires WdfPowerDeviceInvalid <= b <= WdfPowerDeviceMaximum
    requires a != b
    ensures DbgDevicePowerString(a) != DbgDevicePowerString(b)
  {
  }

  class DeviceContext {
    const ioTarget: IoTarget
    const layout: PacketLayout

    var status: DeviceStatus
    var lastReportTime: int
    var hidVendorId: U16
    var hidProductId: U16
    var hidVersionNumber: U16
    var trackpadInfo: TrackpadInfo
    var reportType: ReportType
    /** The due time the power-on recovery timer was started with, while it is pending. */
    var recoveryTimer: Option<int>
    /** The requests waiting in the HID queue, head first. */
    var hidQueue: seq<Request>

    /** Every WdfRequestComplete made so far, in order. */
    ghost var completed: seq<Completion>
    /** Every set-feature packet sent to the I/O target so far, in order. */
    ghost var sentPackets: seq<HidXferPacket>
    /** How many times input issuance (AmtPtpSpiInputIssueRequest) was started. */
    ghost var inputIssueCount: nat

    ghost function Observed(): Machine
      reads this
    {
      Machine(status, recoveryTimer.Some?)
    }

    /** No request waits in the queue while the device is in D3. */
    ghost predicate QueueEmptyWhenOff()
      reads this
    {
      status == D3 ==> hidQueue == []
    }

    /** A freshly created context: zero-filled by the framework, then status reset to D3. */
    constructor (ioTarget: IoTarget, layout: PacketLayout)
      ensures this.ioTarget == ioTarget && this.layout == layout
      ensures status == D3 && recoveryTimer == None && hidQueue == []
      ensures lastReportTime == 0 && hidVendorId == 0 && hidProductId == 0 && hidVersionNumber == 0
      ensures trackpadInfo == EmptyTrackpadInfo && reportType == PrecisionTouchpad
      ensures completed == [] && sentPackets == [] && inputIssueCount == 0
      ensures QueueEmptyWhenOff()
    {
      this.ioTarget := ioTarget;
      this.layout := layout;
      lastReportTime := 0;
      hidVendorId, hidProductId, hidVersionNumber := 0, 0, 0;
      trackpadInfo := EmptyTrackpadInfo;
      reportType := PrecisionTouchpad;
      recoveryTimer := None;
      hidQueue := [];
      completed := [];
      sentPackets := [];
      inputIssueCount := 0;
      status := D3;
    }

    /** D0 entry: the device is powered but not yet configured; `clock` is what the counter query gives. */
    method EvtDeviceD0Entry(clock: CounterQuery) returns (st: Status)
      modifies this`status, this`lastReportTime
      ensures status == D0ActiveAndUnconfigured && lastReportTime == ReportTime(clock)
      ensures st == StatusSuccess
      ensures Observed() == Step(old(Observed()), D0Entered)
      ensures QueueEmptyWhenOff()
    {
      status := D0ActiveAndUnconfigured;
      lastReportTime := ReportTime(clock);
      st := StatusSuccess;
    }

    /** WdfIoQueueRetrieveNextRequest on the HID queue. */
    method RetrieveNextRequest() returns (st: Status, request: Option<Request>)
      modifies this`hidQueue
      ensures old(hidQueue) == [] ==> st == StatusNoMoreEntries && request == None && hidQueue == []
      ensures old(hidQueue) != [] ==> st == StatusSuccess && request == Some(old(hidQueue)[0]) && hidQueue == old(hidQueue)[1..]
    {
      if hidQueue == [] {
        st, request := StatusNoMoreEntries, None;
      } else {
        st, request := StatusSuccess, Some(hidQueue[0]);
        hidQueue := hidQueue[1..];
      }
    }

    /** WdfIoTargetSendInternalIoctlSynchronously with IOCTL_HID_SET_FEATURE, observed as the packet it carries. */
    ghost method SendSetFeature(packet: HidXferPacket)
      modifies this`sentPackets
      ensures sentPackets == old(sentPackets) + [packet]
    {
      sentPackets := sentPackets + [packet];
    }

    /** WdfRequestComplete. */
    ghost method CompleteRequest(request: Request, completionStatus: Status)
      modifies this`completed
      ensures completed == old(completed) + [Completion(request, completionStatus)]
    {
      completed := completed + [Completion(request, completionStatus)];
    }

    /**
     * D0 exit: the status becomes D3, then every queued request is retrieved
     * and completed as cancelled until retrieval fails; that failure is the
     * expected end and the callback succeeds.
     */
    method EvtDeviceD0Exit() returns (st: Status)
      modifies this`status, this`hidQueue, this`completed
      ensures status == D3 && hidQueue == []
      ensures completed == old(completed) + CancelAll(old(hidQueue))
      ensures st == StatusSuccess
      ensures Observed() == Step(old(Observed()), D0Exited)
      ensures QueueEmptyWhenOff()
    {
      status := D3;
      st := StatusSuccess;
      ghost var drained: seq<Request> := [];
      while NtSuccess(st)
        invariant old(hidQueue) == drained + hidQueue
        invariant completed == old(completed) + CancelAll(drained)
        invariant !NtSuccess(st) ==> hidQueue == []
        invariant status == D3
        decreases |hidQueue| + (if NtSuccess(st) then 1 else 0)
      {
        var request;
        st, request := RetrieveNextRequest();
        if NtSuccess(st) {
          CompleteRequest(request.value, StatusCancelled);
          CancelAllAppend(drained, request.value);
          drained := drained + [request.value];
        }
      }
      assert drained == old(hidQueue);
      st := StatusSuccess;
    }

    /**
     * Self-managed I/O init or restart. The enable handshake completes with
     * `handshake`; on success the device is configured and the report time
     * refreshed, on failure the recovery timer is (re)started for 5 seconds
     * and the failure is not reported: the callback always succeeds.
     */
    method EvtDeviceSelfManagedIoInitOrRestart(handshake: Status, clock: CounterQuery) returns (st: Status)
      modifies this`status, this`lastReportTime, this`recoveryTimer, this`sentPackets
      ensures |sentPackets| == |old(sentPackets)| + 1 && sentPackets[..|old(sentPackets)|] == old(sentPackets)
      ensures IsSetFeaturePacket(sentPackets[|old(sentPackets)|], layout) && RequestsEnable(sentPackets[|old(sentPackets)|])
      ensures NtSuccess(handshake) ==>
        status == D0ActiveAndConfigured && lastReportTime == ReportTime(clock) && recoveryTimer == old(recoveryTimer)
      ensures !NtSuccess(handshake) ==>
        status == old(status) && lastReportTime == old(lastReportTime)
        && recoveryTimer == Some(RelativeTimeoutInSeconds(RecoveryDelaySeconds))
      ensures st == (if NtSuccess(handshake) then handshake else StatusSuccess)
      ensures Observed() == Step(old(Observed()), BringUp(NtSuccess(handshake)))
      ensures old(QueueEmptyWhenOff()) ==> QueueEmptyWhenOff()
    {
      var sent;
      st, sent := SetState(this, true, handshake);
      SendSetFeature(sent.value);
      if !NtSuccess(st) {
        st := StatusSuccess;
        recoveryTimer := Some(RelativeTimeoutInSeconds(RecoveryDelaySeconds));
      } else {
        status := D0ActiveAndConfigured;
        lastReportTime := ReportTime(clock);
      }
    }

    /** AmtPtpSpiInputIssueRequest, observed only as being started. */
    ghost method InputIssueRequest()
      modifies this`inputIssueCount
      ensures inputIssueCount == old(inputIssueCount) + 1
    {
      inputIssueCount := inputIssueCount + 1;
    }

    /**
     * The recovery timer has fired (so it is no longer pending) and retries
     * the enable handshake once. On success input issuance is started once
     * and the device is configured; on failure nothing else changes and the
     * timer is not started again.
     */
    method PowerRecoveryTimerCallback(handshake: Status)
      modifies this`status, this`recoveryTimer, this`inputIssueCount, this`sentPackets
      ensures recoveryTimer == None
      ensures |sentPackets| == |old(sentPackets)| + 1 && sentPackets[..|old(sentPackets)|] == old(sentPackets)
      ensures IsSetFeaturePacket(sentPackets[|old(sentPackets)|], layout) && RequestsEnable(sentPackets[|old(sentPackets)|])
      ensures NtSuccess(handshake) ==>
        status == D0ActiveAndConfigured && inputIssueCount == old(inputIssueCount) + 1
      ensures !NtSuccess(handshake) ==>
        status == old(status) && inputIssueCount == old(inputIssueCount)
      ensures Observed() == Step(old(Observed()), RecoveryRetry(NtSuccess(handshake)))
      ensures old(QueueEmptyWhenOff()) ==> QueueEmptyWhenOff()
    {
      recoveryTimer := None;
      var st, sent := SetState(this, true, handshake);
      SendSetFeature(sent.value);
      if NtSuccess(st) {
        InputIssueRequest();
        status := D0ActiveAndConfigured;
      }
    }
  }

  /**
   * Device creation. The framework calls report their statuses; the timer
   * creation status is not among them because the source overwrites it
   * unread. A context is returned exactly when creation succeeds.
   */
  method CreateDevice(deviceCreateStatus: Status, lookasideStatus: Status, ioTarget: Option<IoTarget>,
                      interfaceStatus: Status, queueStatus: Status, layout: PacketLayout)
    returns (st: Status, ctx: DeviceContext?)
    ensures !NtSuccess(deviceCreateStatus) ==> st == deviceCreateStatus
    ensures NtSuccess(deviceCreateStatus) && !NtSuccess(lookasideStatus) ==> st == lookasideStatus
    ensures NtSuccess(deviceCreateStatus) && NtSuccess(lookasideStatus) && ioTarget.None? ==>
      st == StatusInvalidDeviceState
    ensures NtSuccess(deviceCreateStatus) && NtSuccess(lookasideStatus) && ioTarget.Some? ==>
      st == (if NtSuccess(interfaceStatus) then queueStatus else interfaceStatus)
    ensures ctx != null <==> NtSuccess(st)
    ensures ctx != null ==> fresh(ctx) && ioTarget == Some(ctx.ioTarget) && ctx.layout == layout
    ensures ctx != null ==> ctx.status == D3 && ctx.recoveryTimer == None && ctx.hidQueue == [] && ctx.QueueEmptyWhenOff()
    ensures ctx != null ==> ctx.completed == [] && ctx.sentPackets == [] && ctx.inputIssueCount == 0
  {
    ctx := null;
    if !NtSuccess(deviceCreateStatus) {
      return deviceCreateStatus, null;
    }
    if !NtSuccess(lookasideStatus) {
      return lookasideStatus, null;
    }
    if ioTarget.None? {
      return StatusInvalidDeviceState, null;
    }
    var device := new DeviceContext(ioTarget.value, layout);
    st := interfaceStatus;
    if NtSuccess(st) {
      st := queueStatus;
    }
    if NtSuccess(st) {
      ctx := device;
    }
  }

  /**
   * Hardware preparation: query the device attributes, find the geometry of
   * the reported (vendor, product) pair in the table, then apply the desired
   * report type if one could be read. Only a null context, a failed query or
   * an unknown pair fail it.
   */
  method PrepareHardware(ctx: DeviceContext?, table: seq<TrackpadInfo>, queryStatus: Status,
                         attributes: HidDeviceAttributes, desiredReportType: Option<U32>)
    returns (st: Status)
    requires Terminated(table)
    modifies ctx
    ensures ctx == null ==> st == StatusInvalidDeviceState
    ensures ctx != null ==>
      ctx.status == old(ctx.status) && ctx.lastReportTime == old(ctx.lastReportTime)
      && ctx.recoveryTimer == old(ctx.recoveryTimer) && ctx.hidQueue == old(ctx.hidQueue)
      && ctx.completed == old(ctx.completed) && ctx.sentPackets == old(ctx.sentPackets)
      && ctx.inputIssueCount == old(ctx.inputIssueCount)
    ensures ctx != null ==> ctx.Observed() == old(ctx.Observed())
    ensures ctx != null && !NtSuccess(queryStatus) ==> st == queryStatus && unchanged(ctx)
    ensures ctx != null && NtSuccess(queryStatus) ==>
      ctx.hidVendorId == attributes.vendorId && ctx.hidProductId == attributes.productId
      && ctx.hidVersionNumber == attributes.versionNumber
    ensures ctx != null && NtSuccess(queryStatus) && Lookup(table, attributes.vendorId, attributes.productId).None? ==>
      st == StatusNotFound && ctx.trackpadInfo == old(ctx.trackpadInfo) && ctx.reportType == old(ctx.reportType)
    ensures ctx != null && NtSuccess(queryStatus) && Lookup(table, attributes.vendorId, attributes.productId).Some? ==>
      st == StatusSuccess
      && ctx.trackpadInfo == table[Lookup(table, attributes.vendorId, attributes.productId).value]
      && ctx.reportType == ReportTypeAfter(old(ctx.reportType), desiredReportType)
  {
    if ctx == null {
      return StatusInvalidDeviceState;
    }
    st := queryStatus;
    if !NtSuccess(st) {
      return;
    }
    ctx.hidVendorId := attributes.vendorId;
    ctx.hidProductId := attributes.productId;
    ctx.hidVersionNumber := attributes.versionNumber;

    var deviceFound := false;
    var i := 0;
    while table[i].vendorId != 0
      invariant 0 <= i <= SentinelIndex(table)
      invariant !deviceFound && ctx.trackpadInfo == old(ctx.trackpadInfo)
      invariant forall j :: 0 <= j < i ==> !Matches(table[j], attributes.vendorId, attributes.productId)
      decreases SentinelIndex(table) - i
    {
      if Matches(table[i], attributes.vendorId, attributes.productId) {
        ctx.trackpadInfo := table[i];
        deviceFound := true;
        break;
      }
      i := i + 1;
    }
    if !deviceFound {
      return StatusNotFound;
    }

    match desiredReportType {
      case None =>
      case Some(value) =>
        if value == 0 {
          ctx.reportType := PrecisionTouchpad;
        } else if value == 1 {
          ctx.reportType := Touchscreen;
        } else {
          st := StatusInvalidParameter;
        }
    }
    st := StatusSuccess;
  }

  /**
   * The set-feature handshake: build a zeroed transfer packet, fill in the
   * report id, the report length and the set-feature structure (bus location
   * 2, status 1 to enable and 0 to disable), and send it; the status is what
   * the I/O target completes it with. No context field is written. The
   * packet sent, if any, is returned.
   */
  method SetState(ctx: DeviceContext?, desiredState: bool, transport: Status)
    returns (st: Status, sent: Option<HidXferPacket>)
    ensures ctx == null ==> st == StatusInvalidDeviceState && sent == None
    ensures ctx != null ==> st == transport && sent.Some?
    ensures ctx != null ==> IsSetFeaturePacket(sent.value, ctx.layout) && RequestsEnable(sent.value) == desiredState
  {
    if ctx == null {
      return StatusInvalidDeviceState, None;
    }
    var packet := ZeroedPacket;
    packet := packet.(reportId := ctx.layout.mouseReportId);
    packet := packet.(reportBufferLen := ctx.layout.setFeatureSize);
    packet := packet.(feature := packet.feature.(busLocation := SpiBusLocation));
    packet := packet.(feature := packet.feature.(status := if desiredState then 1 else 0));
    st, sent := transport, Some(packet);
  }
}
