/** Small shared vocabulary: optional values, results, and the error taxonomy of the
    TinyG controller engine (the XError codes it raises, plus the JavaScript runtime
    errors its code paths can throw). */
module Common {

  import Json

  datatype Option<+T> = None | Some(value: T)

  datatype Result<+R, +E> = Success(value: R) | Failure(error: E)

  /** Every way a step of the engine can fail. */
  datatype Error =
    | ParseError                    // received line does not start with '{' (XError.PARSE_ERROR)
    | SyntaxError                   // JSON.parse rejected the line
    | TypeError                     // `key in v` applied to a primitive `r` value
    | UnknownMachineState(stat: Json.JVal)      // `stat` outside 0..9 (XError.INTERNAL_ERROR)
    | StatusCodeError(code: Json.JVal)          // acknowledgement with a non-zero status code (XError.MACHINE_ERROR)
    | MachineAlarm(errorData: string)           // waitSync found the error flag set (XError.MACHINE_ERROR)
    | InvalidArgument               // a waiter attached to a control character (XError.INVALID_ARGUMENT)
    | ReferenceError                // the misspelled identifier in the gcode predictor
}
