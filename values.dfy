/** Go values the ledger stores: fixed-width integers, byte arrays,
    float32 bit patterns and slices that may be nil. */
module GoValues {

  newtype byte = x: int | 0 <= x < 0x100

  /** Go's `int64`; also Go's `int`, which is 64 bits wide on the platforms
      the program targets. Nothing in the ledger computes with these. */
  newtype int64 = x: int | -0x8000_0000_0000_0000 <= x < 0x8000_0000_0000_0000

  /** Go's `[32]byte`, the type of a SHA-256 digest. */
  type Digest = s: seq<byte> | |s| == 32 witness seq(32, _ => 0)

  /** The zero value of `[32]byte`. */
  const ZeroDigest: Digest := seq(32, _ => 0)

  /** A `float32` amount, kept as its IEEE-754 bit pattern. */
  type Float32 = bv32

  /** An exponent field of all ones marks an infinity or a NaN. */
  predicate IsFinite(f: Float32) {
    (f >> 23) & 0xFF != 0xFF
  }

  /** A Go slice: `nil`, or a (possibly empty) allocated sequence. */
  datatype Slice<T> = Nil | NonNil(items: seq<T>) {

    /** The elements, as `range` sees them: a nil slice has none. */
    function Elems(): seq<T> {
      match this
      case Nil => []
      case NonNil(s) => s
    }

    /** Go's `append(s, x)`: appending to a nil slice allocates one. */
    function Append(x: T): Slice<T> {
      NonNil(Elems() + [x])
    }
  }
}
