/** Base types of the UEFI environment the application runs in: the status
    word every boot service returns, and the one-byte integer types. Status
    codes follow Appendix D of the UEFI Specification (2.x) for a 64-bit
    platform, where EFI_STATUS is a UINTN and an error has the top bit set. */
module Efi {

  /** UINTN on a 64-bit platform. */
  newtype Status = x: int | 0 <= x < 0x1_0000_0000_0000_0000

  /** UINT8; BOOLEAN is a UINT8 too, so a flag may hold values other than
      TRUE and FALSE. */
  newtype uint8 = x: int | 0 <= x < 0x100

  type Boolean = uint8

  const TRUE: Boolean := 1
  const FALSE: Boolean := 0

  /** MAX_BIT: the bit that marks a status as an error. */
  const ErrorBit: Status := 0x8000_0000_0000_0000

  const EFI_SUCCESS: Status := 0
  const EFI_NOT_FOUND: Status := ErrorBit + 14
  const EFI_NOT_STARTED: Status := ErrorBit + 19

  /** EFI_ERROR: the status has its top bit set. Warnings (non-zero values
      below the top bit) are not errors. */
  predicate IsError(s: Status) {
    s >= ErrorBit
  }

  datatype Option<+T> = None | Some(value: T)
}
