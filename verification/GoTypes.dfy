/** The Go value types the models share. On GOARCH=wasm, `int` is 64 bits and addresses are 32. */
module GoTypes {

  datatype Option<+T> = None | Some(value: T)

  /** Outcome of a Go function that may panic. */
  datatype Go<+T> = Ok(value: T) | Panic

  type byte = n: nat | n < 0x100
  type uint32 = n: nat | n < 0x1_0000_0000
  type uint64 = n: nat | n < 0x1_0000_0000_0000_0000
  type int64 = n: int | -0x8000_0000_0000_0000 <= n < 0x8000_0000_0000_0000

  /** A byte slice. It lies in linear memory, so its length fits 32 bits. */
  type Bytes = s: seq<byte> | |s| < 0x1_0000_0000

  /** Two's-complement wrap-around of 64-bit arithmetic. */
  function Wrap64(x: int): (r: int64)
    ensures -0x8000_0000_0000_0000 <= x < 0x8000_0000_0000_0000 ==> r == x
  {
    (x + 0x8000_0000_0000_0000) % 0x1_0000_0000_0000_0000 - 0x8000_0000_0000_0000
  }
}
