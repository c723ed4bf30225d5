# Device lifecycle core of the SPI trackpad driver (AmtPtpDeviceSpiKm)

This project models the device-lifecycle file of the kernel-mode SPI driver
for Apple trackpads, `src/AmtPtpDeviceSpiKm/Device.c`, and proves properties of
the model in Dafny. The file has five parts:

- **Power state machine.** The status goes `D3`, then `D0ActiveAndUnconfigured`,
  then `D0ActiveAndConfigured`. It is driven by four callbacks: D0 entry,
  self-managed I/O init/restart, the power-on recovery timer, and D0 exit.
- **Request drain.** D0 exit completes every request in the HID queue with
  `STATUS_CANCELLED`.
- **Hardware discovery.** A linear search of the trackpad configuration table
  that stops at its sentinel (a row with vendor id 0). It is followed by the
  `DesiredReportType` configuration value, which selects the report mode.
- **Set-feature handshake.** A zeroed transfer packet that asks the trackpad
  to turn on or off.
- **Device creation.** The I/O target check, and the D3 status a new context
  starts in.

Modules, one per component:

- `Ntdef` (`ntdef.dfy`): the NTSTATUS codes as signed 32-bit values, and `NT_SUCCESS`. `Optional` holds the `Option` type.
- `PowerState` (`power_state.dfy`): the state machine as a pure `Step` over a
  `Machine`, which is the status plus whether a recovery retry is pending.
  `Feasible` marks the traces in which the timer callback only runs while the
  timer is pending. The lemmas are about traces of steps.
- `Discovery` (`discovery.dfy`): the table rows, the sentinel, the `Lookup`
  specification, and the report-type mapping.
- `SetFeature` (`set_feature.dfy`): the transfer packet as a record.
- `Drain` (`drain.dfy`): requests, completions, and the `CancelAll`
  specification of a drain.
- `Clock` (`clock.dfy`): what one `KeQueryPerformanceCounter` call gives,
  which is the counter it returns and the frequency it writes through its
  argument. It holds both the value the source stores in `LastReportTime`
  and the value it is meant to store (see "## Findings").
- `Device` (`device.dfy`): the `DeviceContext` class, whose fields the
  callbacks assign. It also holds the imperative callbacks: the drain loop
  and the table-walking loop are kept as loops. Each callback's `ensures`
  gives the whole new state. For the four power callbacks it also proves
  that the callback takes one `Step` of the `PowerState` machine.
  `PrepareHardware` is proved to leave that machine unchanged.
- `Scenarios` (`scenarios.dfy`): three callers that use only the contracts.
  One discovers a listed trackpad. One recovers after a failed bring-up.
  One drains three queued requests at D0 exit.

What the framework, the bus and the clock return is passed in as parameters:

- the status each framework call or IOCTL completes with;
- the HID attributes the bus reports;
- the configuration value, or `None` when the registry key or value cannot be read;
- what the performance-counter query gives, as a `Clock.CounterQuery`.

Three external effects are recorded in ghost fields:
- starting input issuance (`AmtPtpSpiInputIssueRequest`), as a counter;
- `WdfRequestComplete`, as a completion log;
- the set-feature IOCTL, as a log of the packets sent. The armed
recovery timer is one `Option` field. It holds the due time given to
`WdfTimerStart`, so at most one firing is ever pending.

Behaviour of the source worth noting, which the model keeps:

- The recovery timer callback does not touch `LastReportTime`
  (Device.c:544-550).
- A failed init/restart leaves the status as it was, whatever it was
  (Device.c:400-406).
- On success, init/restart returns the handshake's own status, which may be a
  success code other than 0. On failure it returns `STATUS_SUCCESS`
  (Device.c:399-417).
- D0 exit does not stop the recovery timer (Device.c:344-386). So a retry
  that fires after D0 exit and succeeds leaves the device
  `D0ActiveAndConfigured` (`PowerState.RetryAfterD0ExitConfigures`).

One behaviour the model does not keep: what `LastReportTime` receives. It is
listed under "## Findings". The callbacks store the counter value, as
intended.

## Model

| member | source | states |
|---|---|---|
| `Device.CreateDevice` | src/AmtPtpDeviceSpiKm/Device.c:57-155 | A failed device creation or lookaside creation returns its status. A null I/O target gives `STATUS_INVALID_DEVICE_STATE`. Otherwise the status is the interface creation's, then the queue initialisation's. A context is returned exactly when the status is a success, and it starts in D3 with no pending timer and an empty queue. |
| `Device.DeviceContext.constructor` | src/AmtPtpDeviceSpiKm/Device.c:122-125 | A new context is in D3, with no pending timer, an empty queue and zeroed identity fields. |
| `Device.PrepareHardware` | src/AmtPtpDeviceSpiKm/Device.c:157-308 | A null context gives `STATUS_INVALID_DEVICE_STATE`. A failed attribute query returns its status and writes nothing. After a successful query, the Hid vendor, product and version are stored. An unlisted pair gives `STATUS_NOT_FOUND` and leaves geometry and report type alone. A listed pair copies the first matching row and applies `ReportTypeAfter`, and the result is `STATUS_SUCCESS` whatever the configuration read gave. Status, timer, queue and the logs are never touched, so the power machine is unchanged. |
| `Discovery.SentinelIndex` | src/AmtPtpDeviceSpiKm/Device.c:235 | The search bound is the first row with vendor id 0: every row before it has a non-zero vendor id. |
| `Discovery.Lookup` | src/AmtPtpDeviceSpiKm/Device.c:235-250 | The result is the first row before the sentinel whose (vendor, product) equals the query. If there is none, no row before the sentinel matches. |
| `Discovery.LookupStopsAtSentinel` | src/AmtPtpDeviceSpiKm/Device.c:235 | Rows after the sentinel are never read: appending rows to a terminated table changes no lookup. |
| `Discovery.LookupZeroVendorNotFound` | src/AmtPtpDeviceSpiKm/Device.c:235-238 | A device that reports vendor id 0 is never found. |
| `Discovery.ReportTypeAfter` | src/AmtPtpDeviceSpiKm/Device.c:277-291 | The value 0 selects PrecisionTouchpad and 1 selects Touchscreen. Any other value, or a failed open or query, keeps the current mode. |
| `Discovery.ReportTypeCodeRoundTrip` | src/AmtPtpDeviceSpiKm/Device.c:279-286 | Reading a mode's own code selects that mode, whatever the mode was before. |
| `Device.DeviceContext.EvtDeviceD0Entry` | src/AmtPtpDeviceSpiKm/Device.c:310-342 | The status becomes `D0ActiveAndUnconfigured` and the call returns success. `LastReportTime` becomes `ReportTime` of the counter query, which is the intended value (the source stores the frequency, see "## Findings"). This is one `Step(D0Entered)`. |
| `Clock.ReportTimeAsWrittenIsStale` | src/AmtPtpDeviceSpiKm/Device.c:333 | As written, the stored time is the frequency the call writes through its argument. Two queries at different instants store the same value. |
| `Clock.ReportTimeAdvances` | src/AmtPtpDeviceSpiKm/Device.c:333 | If the counter the call returns is stored, a later query stores a later time. |
| `Device.DeviceContext.RetrieveNextRequest` | src/AmtPtpDeviceSpiKm/Device.c:366-369 | An empty queue gives `STATUS_NO_MORE_ENTRIES` and no request. Otherwise the call returns the head and removes it. |
| `Device.DeviceContext.EvtDeviceD0Exit` | src/AmtPtpDeviceSpiKm/Device.c:344-386 | The status becomes D3 and the queue ends empty. The completion log grows by exactly `CancelAll` of the old queue. The call returns `STATUS_SUCCESS` although the loop ended on a failed retrieval. This is one `Step(D0Exited)`. |
| `Drain.CancelAllInOrder` | src/AmtPtpDeviceSpiKm/Device.c:365-374 | The i-th completion of a drain completes the i-th queued request with `STATUS_CANCELLED`. |
| `Drain.CancelAllCompletesQueue` | src/AmtPtpDeviceSpiKm/Device.c:365-374 | The requests a drain completes are exactly the queue, in FIFO order. |
| `Drain.CancelAllExactlyOnce` | src/AmtPtpDeviceSpiKm/Device.c:365-374 | Each request is completed exactly as many times as it was queued. |
| `Device.DeviceContext.EvtDeviceSelfManagedIoInitOrRestart` | src/AmtPtpDeviceSpiKm/Device.c:388-418 | Exactly one well-formed enable packet is sent. A successful handshake gives `D0ActiveAndConfigured`, sets `LastReportTime` to `ReportTime` of the counter query (the intended value, see "## Findings"), and returns the handshake's status. A failed handshake leaves status and time unchanged, arms the timer with a relative due time of 5 s, and returns `STATUS_SUCCESS`. This is one `Step(BringUp(ok))`. |
| `Device.DeviceContext.PowerRecoveryTimerCallback` | src/AmtPtpDeviceSpiKm/Device.c:532-553 | Exactly one well-formed enable packet is sent. The fired timer is no longer pending, and nothing re-arms it. A successful retry starts input issuance exactly once and gives `D0ActiveAndConfigured`. A failed retry changes nothing else. This is one `Step(RecoveryRetry(ok))`. |
| `Device.SetState` | src/AmtPtpDeviceSpiKm/Device.c:448-530 | A null context gives `STATUS_INVALID_DEVICE_STATE` and sends nothing. Otherwise the call sends a well-formed set-feature packet that requests exactly the desired state, and returns the transport's status. No context field is written. |
| `SetFeature.SetFeaturePacketUnique` | src/AmtPtpDeviceSpiKm/Device.c:474-489 | The report id, length, bus location 2, and status 1 to enable or 0 to disable fix the packet completely. |
| `Device.DbgDevicePowerString` | src/AmtPtpDeviceSpiKm/Device.c:420-446 | The eight named power states get `WdfPowerDevice...` names. Every other value, and only those, gets "UnKnown Device Power State". |
| `Device.DbgDevicePowerStringInjective` | src/AmtPtpDeviceSpiKm/Device.c:425-444 | Different named power states have different names. |
| `PowerState.ConfiguredOnlyByHandshake` | src/AmtPtpDeviceSpiKm/Device.c:399-413 | From a status other than `D0ActiveAndConfigured`, a trace reaches it only through a successful handshake, at init/restart or at the timer. |
| `PowerState.FailedHandshakesKeepStatus` | src/AmtPtpDeviceSpiKm/Device.c:399-407 | Repeated failed bring-ups never change the status. Once the timer is armed, they change nothing at all: a re-arm replaces the firing and never stacks one. |
| `PowerState.StaysInD3UntilWoken` | src/AmtPtpDeviceSpiKm/Device.c:362 | After D3, the status stays D3 until D0 entry or a successful handshake. |
| `PowerState.ArmedByFailedBringUp` | src/AmtPtpDeviceSpiKm/Device.c:399-406 | A pending retry was either pending at the start, or armed by a failed bring-up with no retry since. |
| `PowerState.RetryFollowsFailedBringUp` | src/AmtPtpDeviceSpiKm/Device.c:544-550 | In a feasible trace that starts with no pending retry, every retry is preceded by a failed bring-up with no other retry in between. So no failed bring-up is retried more than once. |
| `PowerState.RetryAfterD0ExitConfigures` | src/AmtPtpDeviceSpiKm/Device.c:544-550 | As written, a failed bring-up, then D0 exit, then a successful retry ends in `D0ActiveAndConfigured`. |

## Left out

- Framework object setup (`WdfDeviceCreate`, the lookaside list, `WdfTimerCreate`, the device interface, queue initialisation): only their completion statuses are inputs of `CreateDevice`. The timer creation status is not an input, because the source overwrites it unread.
- Transport: the identity query and the set-feature IOCTL are inputs: a completion status, plus the attribute record for the query. What the trackpad does with a packet is not modelled.
- Registry access is an optional integer. The open, query and close calls and the key name are not modelled.
- The clock: each `KeQueryPerformanceCounter` call is a `CounterQuery` input, holding the counter it returns and the frequency it writes. Nothing ties successive queries together.
- Timer scheduling and concurrency: when the timer fires, `AutomaticSerialization`, and any interleaving of callbacks are not modelled. `Feasible` only requires that a retry runs while the timer is pending.
- `RetrieveNextRequest`: only the empty-queue failure is modelled. Other retrieval failures, which would also end the drain loop, are not.
- Byte layout: the definitions of `HID_XFER_PACKET` and `SPI_SET_FEATURE`, `HID_REPORTID_MOUSE` and `HID_XFER_PACKET_SIZE` are in headers that are not part of this model. The packet is a record, and the report id and structure size are a `PacketLayout` given to the context. Zeroing the buffer shows only in the record's zero start value; padding bytes and the `reportBuffer` pointer into the same buffer are not modelled.
- Table contents: `SpiTrackpadConfigTable` is a parameter that must end with a sentinel. The C loop would read past a table without one.
- The initial report mode of a zero-filled context is taken to be PrecisionTouchpad. The enum definition is in a header that is not part of this model.
- Tracing (`TraceEvents`, `KdPrintEx`) and the power-state arguments of D0 entry and exit, which are used only for tracing.
- `AmtPtpSpiInputIssueRequest` is external. It is recorded only as a count of calls.

## Findings

| source | as written | input that shows it | evidently intended | confidence | as-written member | corrected member |
|---|---|---|---|---|---|---|
| src/AmtPtpDeviceSpiKm/Device.c:333 | `KeQueryPerformanceCounter(&pDeviceContext->LastReportTime)` passes the field as the routine's optional `PerformanceFrequency` out-argument and discards the counter the routine returns. `LastReportTime` therefore receives the frequency (the same call is repeated at Device.c:412). | Two calls at different instants, with counters 100 and 200 and the fixed boot-time frequency 10 000 000. Both store 10 000 000, so the time never advances. | `LastReportTime` holds the counter value the call returns, and a later call stores a later time. | medium: rests on the documented signature of the routine, whose header is not part of this model; not executed | `Clock.ReportTimeAsWrittenIsStale` | `Clock.ReportTimeAdvances` |
