/** The exceptions the modelled code can raise. */
module Errors {

  datatype Error =
    /** `ArgumentNullException`: a required constructor argument was null. */
    | ArgumentNull(paramName: string)
    /** `ArgumentOutOfRangeException`: `Substring` was asked for more characters than there are. */
    | ArgumentOutOfRange(paramName: string)
    /** `InvalidOperationException` carrying its message. */
    | InvalidOperation(message: string)
    /** `NotImplementedException`. */
    | NotImplemented
}
