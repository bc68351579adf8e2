/** The error type of the binding (src/error.rs) and the Option/Result
    wrappers its fallible operations return. */
module Errors {

  datatype Option<+T> = None | Some(value: T)

  /** `Result<T, SdlError>`. */
  datatype Result<+T> = Ok(value: T) | Err(error: SdlError)

  /** `SdlError`: the ways an operation of the binding reports failure. */
  datatype SdlError =
    | AlreadyInitialized(message: string)  // SDL2, or the named subsystem, is already live
    | SysError(message: string)            // the text SDL_GetError reported after a failed call
    | NulError                             // a name for SDL contained a NUL character
}
