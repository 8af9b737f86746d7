/** Failure-carrying results, and the switch between the code as written
    and its evidently intended reading, shared by every module of the model. */
module Outcomes {

  datatype Option<+T> = None | Some(value: T)

  /** The distinct errors the engine returns, plus `Panic` for a Go run-time
      panic (index or slice out of range, or parseRangeLine's `panic(err)`),
      which aborts the render just as an error does. */
  datatype Failure =
    | EmptyDocument          // renderStatic: "report has not scheets"
    | MissingClosingHashes   // renderStatic: "fatal error: not found closing ##"
    | BadCoordinates         // extractSRC: input does not split into three parts
    | NotAnInteger(text: string)  // strconv.Atoi rejected `text`
    | InvalidSheetNumber     // delRow, insertRowsOld
    | InvalidRow             // delRow
    | InvalidStartingRow     // insertRowsOld
    | InvalidSheetFrom       // appendRows
    | InvalidSheetTo         // appendRows
    | InvalidSourceStart     // appendRows
    | InvalidSourceEnd       // appendRows
    | EvaluationFailed       // text/template rejected the tag blob
    | Panic                  // Go run-time panic

  datatype Result<+T> = Ok(value: T) | Err(error: Failure)

  datatype Outcome = Pass | Fail(error: Failure)

  /** The source as written, or with the quirks listed under Findings in
      the README fixed: the ">>" of a range line searched after its "<<",
      the template row located with offset[s] counted once, and an empty
      block's row deleted from its own sheet. */
  datatype Layout = AsWritten | Intended
}
