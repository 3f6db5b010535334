// Floating-point primitives the kernels call. Their numeric behaviour is not
// modelled: each is an arbitrary function supplied by the caller, so every
// property proved with them holds whatever the library computes.
module Floats {
  datatype FloatLib = FloatLib(
    cos: real -> real,
    sin: real -> real,
    pow: (real, real) -> real,
    exp: real -> real,
    log: real -> real,
    /** Float division; total, so that division by zero yields some value. */
    div: (real, real) -> real,
    /** Rounding of an fp32 value to fp16 (fp16 to fp32 is exact). */
    toHalf: real -> real)
}
