/** The native SDL2 library as seen by the binding: an oracle whose answers are
    parameters of the model. Also the C integer conversions the binding applies
    to those answers. */
module Native {

  const I32_MIN: int := -0x8000_0000
  const I32_MAX: int := 0x7FFF_FFFF
  const U32_MODULUS: int := 0x1_0000_0000

  /** A value of C's `int` (Rust `i32`). */
  predicate IsI32(x: int) { I32_MIN <= x <= I32_MAX }

  /** A value of Rust's `u32`. */
  predicate IsU32(x: int) { 0 <= x < U32_MODULUS }

  /** `x as u32` for an `i32` x: the bit pattern is kept, so negative values wrap. */
  function AsU32(x: int): (r: nat)
    requires IsI32(x)
    ensures IsU32(r)
    ensures 0 <= x ==> r == x
    ensures x < 0 ==> r == x + U32_MODULUS
  {
    x % U32_MODULUS
  }

  /** `u as c_int` for a `u32` u: the inverse reinterpretation. */
  function AsI32(u: nat): (r: int)
    requires IsU32(u)
    ensures IsI32(r)
    ensures AsU32(r) == u
    ensures u <= I32_MAX ==> r == u
  {
    if u <= I32_MAX then u else u - U32_MODULUS
  }

  /** A `const char *` returned by SDL: null, or a string (already decoded). */
  datatype CStr = Null | Ptr(text: string)

  /** The native entry points that change SDL's global state, plus SDL_GetError,
      which the binding calls after each failed initialization. */
  datatype NativeCall =
    | Init(flags: nat)            // SDL_Init
    | InitSubSystem(flags: nat)   // SDL_InitSubSystem
    | AudioInit(driver: string)   // SDL_AudioInit
    | Quit                        // SDL_Quit
    | QuitSubSystem(flags: nat)   // SDL_QuitSubSystem
    | AudioQuit                   // SDL_AudioQuit
    | GetError                    // SDL_GetError
}
