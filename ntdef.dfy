/** Fixed-width integers and the NTSTATUS codes the driver returns. */
module Ntdef {

  type U8 = x: int | 0 <= x < 0x100
  type U16 = x: int | 0 <= x < 0x1_0000
  type U32 = x: int | 0 <= x < 0x1_0000_0000

  /** An NTSTATUS: a 32-bit code read as a signed integer. */
  newtype Status = x: int | -0x8000_0000 <= x < 0x8000_0000

  /** The signed value of a 32-bit status code as the Windows headers write it in hex. */
  function FromCode(code: U32): (s: Status)
    ensures (s as int) % 0x1_0000_0000 == code
    ensures (s < 0) == (code >= 0x8000_0000)
  {
    if code < 0x8000_0000 then code as Status else (code - 0x1_0000_0000) as Status
  }

  /** NT_SUCCESS: success and informational codes are the non-negative ones. */
  predicate NtSuccess(s: Status) {
    s >= 0
  }

  const StatusSuccess: Status := 0
  const StatusCancelled: Status := FromCode(0xC000_0120)
  const StatusNotFound: Status := FromCode(0xC000_0225)
  const StatusInvalidDeviceState: Status := FromCode(0xC000_0184)
  const StatusInvalidParameter: Status := FromCode(0xC000_000D)
  const StatusNoMoreEntries: Status := FromCode(0x8000_001A)
}

module Optional {
  datatype Option<T> = None | Some(value: T)
}
