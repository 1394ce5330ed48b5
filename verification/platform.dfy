/**
 * Machine types and framework-level outcomes shared by every version of the
 * lease program: Rust's fixed-width integers, 32-byte arrays, public keys,
 * and the failures the account framework raises around a handler.
 */
module Platform {

  /** Rust `u8`. */
  type u8 = x: int | 0 <= x < 0x100

  /** Rust `u64`. */
  type u64 = x: int | 0 <= x < 0x1_0000_0000_0000_0000

  /** Rust `i64`, also the type of the clock's Unix timestamp. */
  type i64 = x: int | -0x8000_0000_0000_0000 <= x < 0x8000_0000_0000_0000

  /** `[u8; 32]`: content hashes and signature digests. */
  type Bytes32 = s: seq<u8> | |s| == 32
    witness [0, 0, 0, 0, 0, 0, 0, 0, 0, 0, 0, 0, 0, 0, 0, 0,
             0, 0, 0, 0, 0, 0, 0, 0, 0, 0, 0, 0, 0, 0, 0, 0]

  /** The all-zero array `[0; 32]`. */
  const ZERO32: Bytes32 := [0, 0, 0, 0, 0, 0, 0, 0, 0, 0, 0, 0, 0, 0, 0, 0,
                            0, 0, 0, 0, 0, 0, 0, 0, 0, 0, 0, 0, 0, 0, 0, 0]

  /** A wallet public key; the program only ever compares keys for equality. */
  type Pubkey = Bytes32

  /** A Rust `String` as its UTF-8 bytes; `String::len()` is the length of this sequence. */
  type Utf8 = seq<u8>

  /** Failures raised by the account framework rather than by a handler's own checks. */
  datatype AccountError =
    | AccountAlreadyInUse    // `init` found an account already at the derived address
    | AccountNotInitialized  // the instruction named an address that holds no lease account

  datatype Result<+T, +E> = Ok(value: T) | Err(error: E)
}
