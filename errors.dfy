/**
 * The exceptions the storage layer raises, as one datatype, and the
 * result and option wrappers used in place of throwing and of `null`.
 */
module Errors {

  /**
   * NotFound, AlreadyExists, InvalidPath, InvalidFile and PartialDeletion
   * stand for the matching `...MinioException` classes; StoreError for a
   * plain `MinioException` wrapping any other store failure;
   * IllegalArgument and OutOfBounds for the two JDK runtime exceptions
   * that path arithmetic can raise.
   */
  datatype Error =
    | NotFound
    | AlreadyExists
    | InvalidPath
    | InvalidFile
    | PartialDeletion
    | StoreError
    | IllegalArgument
    | OutOfBounds

  datatype Result<T> = Ok(value: T) | Err(error: Error)

  datatype Option<T> = None | Some(value: T)
}
