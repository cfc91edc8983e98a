/** Option and Result values for the script's optional stages and its fatal faults. */
module Outcome {

  datatype Option<+T> = None | Some(value: T)

  /** The faults the modelled statements can raise. */
  datatype Error =
    | NotFound(labels: seq<string>)   // pandas KeyError: labels missing from the axis
    | LengthMismatch                  // pandas ValueError: columns of a new frame differ in length
    | Undefined(name: string)         // Python NameError: the variable was never assigned

  datatype Result<+R> = Success(value: R) | Failure(error: Error)
}
