/** The error type of the crate (src/error.rs) and `crate::Result<()>`. */
module PcapNgErrors {

  datatype PcapNgError =
    | FileOpenError
    | FileCloseError
    | FileNotOpen
    | OperationOnlySupportedInReadMode
    | OperationOnlySupportedInWriteMode
    | UnknownError(message: string)

  /** `crate::Result<()>`: success carries no value. */
  datatype Result = Ok | Err(error: PcapNgError)
}
