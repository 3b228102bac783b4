/** Outcomes shared by the request pipeline: an optional value, and a value or the
    Python exception that would escape the handler (Starlette turns an escaping
    exception into a server error, so the model keeps which one it was). */
module Errors {

  datatype Option<+T> = None | Some(value: T)

  /** The exceptions the handler does not catch. */
  datatype Fault =
    /** `ValueError: not enough values to unpack (expected 2, got n)` */
    | NotEnoughValuesToUnpack(got: nat)
    /** `ValueError: too many values to unpack (expected 2)`; newer Python releases add
        `, got n` to the message */
    | TooManyValuesToUnpack(got: nat)
    /** `ValueError: invalid literal for int() with base 10` */
    | InvalidIntLiteral(text: string)
    /** `ZeroDivisionError: float division by zero` */
    | ZeroDivision
    /** `NameError`: the orientation tag name was never bound */
    | UnboundOrientationTag
    /** any exception raised by the image libraries while decoding */
    | DecodeFailed
    /** an exception other than AttributeError, KeyError or IndexError raised while reading EXIF */
    | ExifFailed
    /** an exception raised by Pillow while rotating, thumbnailing, converting or saving
        the image (a box with a zero side, a mode that JPEG cannot store, pixel data
        that fails to load) */
    | PillowFailed

  datatype Result<+T> = Success(value: T) | Failure(fault: Fault)
}
