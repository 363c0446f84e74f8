/** Machine integers, byte strings and the failure wrappers shared by the on-chain programs. */
module Common {

  /** An unsigned 8-bit value, as stored in a byte buffer or an account field of type `u8`. */
  newtype byte = b: int | 0 <= b < 256

  const U8_MAX: nat := 0xFF
  const U32_MAX: nat := 0xFFFF_FFFF
  const U64_MAX: nat := 0xFFFF_FFFF_FFFF_FFFF
  /** 2^64 and 2^128: the ranges of `u64` and `u128`. */
  const TWO_POW_64: nat := 0x1_0000_0000_0000_0000
  const TWO_POW_128: nat := 0x1_0000_0000_0000_0000_0000_0000_0000_0000

  predicate IsU8(x: int) { 0 <= x <= U8_MAX }
  predicate IsU64(x: int) { 0 <= x <= U64_MAX }

  /** A 32-byte account address (a Solana public key). */
  type Pubkey = s: seq<byte> | |s| == 32 witness seq(32, _ => 0)

  datatype Option<+T> = None | Some(value: T)

  datatype Result<+T, +E> = Ok(value: T) | Err(error: E)

  /** What an instruction returns: `Ok(())` or an error code. */
  datatype Outcome<+E> = Pass | Fail(error: E)

  /** The outcome an instruction reports when its transition is `r`. */
  function OutcomeOf<S, E>(r: Result<S, E>): Outcome<E>
  {
    match r
    case Ok(_) => Pass
    case Err(e) => Fail(e)
  }

  /** The state after an instruction whose transition is `r`: a failed instruction is rolled back. */
  function StateAfter<S, E>(r: Result<S, E>, before: S): S
  {
    match r
    case Ok(after) => after
    case Err(_) => before
  }

  /** Rust's `u64::saturating_add`: the sum, clamped at `u64::MAX` instead of wrapping. */
  function SaturatingAdd(a: nat, b: nat): (r: nat)
    requires IsU64(a) && IsU64(b)
    ensures IsU64(r)
    ensures a <= r && b <= r && r <= a + b
    ensures r < a + b ==> r == U64_MAX
  {
    if a + b <= U64_MAX then a + b else U64_MAX
  }

  function Pow(base: nat, exp: nat): nat
  {
    if exp == 0 then 1 else base * Pow(base, exp - 1)
  }
}
