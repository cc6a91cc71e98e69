/** Failure-compatible result types shared by every module of the model,
    and the errors the two workflows can end with. */
module Wrappers {

  datatype Option<+T> = None | Some(value: T)

  /** Every way an operation of the program can fail. The program reports
      each of them through one error type; the model keeps them apart so that
      contracts can say which step failed. */
  datatype Error =
    | PickerFailed                    // the picker exited unsuccessfully or printed nothing usable
    | UnparsableIndex                 // the picker's index output was not a number
    | InvalidIndex                    // the picker returned an index outside the list
    | SecretNotFound(name: string)   // no stored record carries the label
    | MultipleSecrets(name: string)  // more than one stored record carries the label
    | UndecodablePayload(name: string) // the stored payload is not a flat string map
    | InvalidDisplay(display: string) // a display string without the ": " separator
    | NoFieldsFound                   // retrieve: the chosen record has no fields
    | FieldNotFound                   // retrieve: the chosen field is missing from the record
    | NoFieldsProvided                // store: the record would be saved without fields
    | SuggestionsUnavailable          // store: the background fetch of field names failed

  datatype Result<+T> = Success(value: T) | Failure(error: Error) {

    predicate IsFailure() {
      Failure?
    }

    function PropagateFailure<U>(): Result<U>
      requires Failure?
    {
      Failure(error)
    }

    function Extract(): T
      requires Success?
    {
      value
    }
  }
}
