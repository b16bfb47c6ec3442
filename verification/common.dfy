/** Types shared by the driver and installer models: optional values,
    the NTSTATUS codes the core produces or passes along, and the C integer
    widths that matter. */
module Common {

  datatype Option<+T> = None | Some(value: T)

  /** The NTSTATUS values that appear in the dispatch routines. `Unsuccessful`
      stands for any other failure code a lower driver may answer with. */
  datatype Status =
    | Success
    | Pending
    | BufferTooSmall
    | InvalidParameter
    | InsufficientResources
    | DeletePending
    | NotSupported
    | NoSuchDevice
    | Unsuccessful

  /** NT_SUCCESS: success and informational codes, STATUS_PENDING included. */
  predicate NtSuccess(s: Status) {
    s == Success || s == Pending
  }

  /** ULONG and LONG as value ranges. */
  type u32 = x: int | 0 <= x < 0x1_0000_0000
  type i32 = x: int | -0x8000_0000 <= x < 0x8000_0000

  /** The terminating or separating NUL of a C string. */
  const NUL: char := '\0'
}
