/**
 * Hardware discovery: the trackpad configuration table, searched up to its
 * sentinel for the (vendor, product) pair the device reports, and the
 * desired report type read from the driver's configuration.
 */
module Discovery {
  import opened Ntdef
  import opened Optional

  /** What the bus driver reports for IOCTL_HID_GET_DEVICE_ATTRIBUTES. */
  datatype HidDeviceAttributes = HidDeviceAttributes(vendorId: U16, productId: U16, versionNumber: U16)

  /** One row of the configuration table; also the geometry record kept in the device context. */
  datatype TrackpadInfo = TrackpadInfo(vendorId: U16, productId: U16, xMin: int, xMax: int, yMin: int, yMax: int)

  const EmptyTrackpadInfo := TrackpadInfo(0, 0, 0, 0, 0, 0)

  predicate Matches(entry: TrackpadInfo, vendorId: U16, productId: U16) {
    entry.vendorId == vendorId && entry.productId == productId
  }

  /** The index of the first row whose vendor id is zero (the sentinel), or the table length if there is none. */
  function SentinelIndex(table: seq<TrackpadInfo>): (n: nat)
    ensures n <= |table|
    ensures n < |table| ==> table[n].vendorId == 0
    ensures forall j :: 0 <= j < n ==> table[j].vendorId != 0
  {
    if table == [] || table[0].vendorId == 0 then 0 else 1 + SentinelIndex(table[1..])
  }

  /** The table ends with a sentinel row, as the driver's static table does. */
  predicate Terminated(table: seq<TrackpadInfo>) {
    SentinelIndex(table) < |table|
  }

  /** The first row before the sentinel that matches the pair, if any. */
  function Lookup(table: seq<TrackpadInfo>, vendorId: U16, productId: U16): (r: Option<nat>)
    ensures r.Some? ==> r.value < SentinelIndex(table) && Matches(table[r.value], vendorId, productId)
    ensures r.Some? ==> forall j :: 0 <= j < r.value ==> !Matches(table[j], vendorId, productId)
    ensures r.None? ==> forall j :: 0 <= j < SentinelIndex(table) ==> !Matches(table[j], vendorId, productId)
  {
    if table == [] || table[0].vendorId == 0 then None
    else if Matches(table[0], vendorId, productId) then Some(0)
    else match Lookup(table[1..], vendorId, productId)
      case None => None
      case Some(k) => Some(k + 1)
  }

  /** Rows after the sentinel are never read: appending anything to a terminated table changes no lookup. */
  lemma {:induction false} LookupStopsAtSentinel(table: seq<TrackpadInfo>, rest: seq<TrackpadInfo>, vendorId: U16, productId: U16)
    requires Terminated(table)
    ensures Lookup(table + rest, vendorId, productId) == Lookup(table, vendorId, productId)
    decreases |table|
  {
    assert (table + rest)[0] == table[0];
    if table[0].vendorId != 0 {
      assert (table + rest)[1..] == table[1..] + rest;
      LookupStopsAtSentinel(table[1..], rest, vendorId, productId);
    }
  }

  /** A device reporting vendor id zero is never found: the search stops at the sentinel first. */
  lemma LookupZeroVendorNotFound(table: seq<TrackpadInfo>, productId: U16)
    ensures Lookup(table, 0, productId) == None
  {
  }

  /** The report modes of the driver. */
  datatype ReportType = PrecisionTouchpad | Touchscreen

  /** The configuration value that selects each report mode. */
  function ReportTypeCode(t: ReportType): (code: U32) {
    match t
    case PrecisionTouchpad => 0
    case Touchscreen => 1
  }

  /**
   * The report mode after reading the DesiredReportType value: a value that
   * is the code of a mode selects that mode; any other value, or no value at
   * all, keeps the current mode.
   */
  function ReportTypeAfter(current: ReportType, desired: Option<U32>): (r: ReportType)
    ensures desired.Some? && desired.value <= 1 ==> ReportTypeCode(r) == desired.value
    ensures !(desired.Some? && desired.value <= 1) ==> r == current
  {
    match desired
    case None => current
    case Some(v) => if v == 0 then PrecisionTouchpad else if v == 1 then Touchscreen else current
  }

  lemma ReportTypeCodeRoundTrip(current: ReportType, t: ReportType)
    ensures ReportTypeAfter(current, Some(ReportTypeCode(t))) == t
  {
  }
}
