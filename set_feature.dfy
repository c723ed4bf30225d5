/**
 * The set-feature packet of the enable handshake: a HID transfer packet
 * whose report buffer holds the SPI set-feature structure.
 */
module SetFeature {
  import opened Ntdef

  /**
   * The values the headers give for the HID report id of the mouse
   * collection and the size of the SPI set-feature structure.
   */
  datatype PacketLayout = PacketLayout(mouseReportId: U8, setFeatureSize: U32)

  datatype SpiSetFeature = SpiSetFeature(busLocation: U8, status: U8)

  /** A HID transfer packet; its report buffer is the set-feature structure that follows it. */
  datatype HidXferPacket = HidXferPacket(reportId: U8, reportBufferLen: U32, feature: SpiSetFeature)

  /** The trackpad sits at location 2 of the SPI bus. */
  const SpiBusLocation: U8 := 2

  /** The packet buffer after it has been zeroed. */
  const ZeroedPacket := HidXferPacket(0, 0, SpiSetFeature(0, 0))

  /** A well-formed set-feature packet for the given layout: status is 0 or 1. */
  predicate IsSetFeaturePacket(p: HidXferPacket, layout: PacketLayout) {
    && p.reportId == layout.mouseReportId
    && p.reportBufferLen == layout.setFeatureSize
    && p.feature.busLocation == SpiBusLocation
    && p.feature.status <= 1
  }

  /** Whether the packet asks the trackpad to turn on. */
  predicate RequestsEnable(p: HidXferPacket) {
    p.feature.status == 1
  }

  /** A well-formed packet is determined by the layout and the state it requests. */
  lemma SetFeaturePacketUnique(p: HidXferPacket, q: HidXferPacket, layout: PacketLayout)
    requires IsSetFeaturePacket(p, layout) && IsSetFeaturePacket(q, layout)
    requires RequestsEnable(p) == RequestsEnable(q)
    ensures p == q
  {
  }
}
