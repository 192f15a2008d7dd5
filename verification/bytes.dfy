/** Bytes and the XOR-with-a-key-stream step shared by every munging entry point. */
module Bytes {

  /** A Rust `u8`. XOR is the bit-vector operator `^`. */
  type u8 = bv8

  /** The outcome of an I/O call: the value, or the error the underlying stream reported. */
  datatype Result<+T> = Ok(value: T) | Err(error: IoError)

  /** The error an underlying sink or source reports; its contents do not matter to the munger. */
  datatype IoError = WriteFailed | ReadFailed

  function Min(a: nat, b: nat): nat
  {
    if a <= b then a else b
  }

  /**
    `data.zip(keys).map(|(d, k)| d ^ k)`: pairs positions from the front and
    stops as soon as either side runs out.
   */
  function ZipXor(data: seq<u8>, keys: seq<u8>): seq<u8>
  {
    seq(Min(|data|, |keys|), i requires 0 <= i < Min(|data|, |keys|) => data[i] ^ keys[i])
  }

  /** Taking `n` bytes and then `k` more is taking `n + k`; what is left matches too. */
  lemma SliceJoin(s: seq<u8>, n: nat, k: nat)
    requires n + k <= |s|
    ensures s[..n] + s[n..][..k] == s[..n + k]
    ensures s[n..][k..] == s[n + k..]
  {
  }
}
