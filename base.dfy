/** Shared vocabulary of the model: optional values and results, Go's fixed-width
    integers, Go strings as byte sequences, and the outcome of a repository lookup. */
module Base {

  datatype Option<+T> = None | Some(value: T)

  datatype Result<+T, +E> = Ok(value: T) | Err(error: E)

  /** Go's `int64`. */
  const Int64Min: int := -0x8000_0000_0000_0000
  const Int64Max: int := 0x7FFF_FFFF_FFFF_FFFF
  type int64 = x: int | -0x8000_0000_0000_0000 <= x <= 0x7FFF_FFFF_FFFF_FFFF

  /** Two's-complement wrap-around of an exact integer into `int64`, which is what
      Go's `int64` arithmetic does on overflow. */
  function Wrap64(x: int): (r: int64)
    ensures Int64Min <= x <= Int64Max ==> r == x
    ensures (r - x) % 0x1_0000_0000_0000_0000 == 0
  {
    (x - Int64Min) % 0x1_0000_0000_0000_0000 + Int64Min
  }

  /** A Go string is a sequence of bytes. */
  type byte = x: int | 0 <= x < 256
  type Bytes = seq<byte>

  predicate IsAscii(s: string) {
    forall i | 0 <= i < |s| :: s[i] as int < 128
  }

  /** The bytes of an ASCII literal (used for the fixed keys and constants of the source). */
  function Ascii(s: string): (r: Bytes)
    requires IsAscii(s)
    ensures |r| == |s|
    ensures forall i | 0 <= i < |s| :: r[i] == s[i] as int
  {
    seq(|s|, i requires 0 <= i < |s| => s[i] as int)
  }

  /** Failures of the persistence layer, which is an external collaborator. */
  datatype StoreError = Unavailable | UniqueViolation | Other(message: string)

  /** What a repository `GetBy…` call returns: a row, GORM's `ErrRecordNotFound`,
      or any other error. */
  datatype Lookup<+T> = Found(row: T) | NotFound | Failed(error: StoreError)

  /** A lookup over a snapshot, where `fault` is the error the store may raise instead. */
  function LookupOf<T>(found: Option<T>, fault: Option<StoreError>): (r: Lookup<T>)
    ensures fault.Some? ==> r == Failed(fault.value)
    ensures fault.None? && found.Some? ==> r == Found(found.value)
    ensures fault.None? && found.None? ==> r == NotFound
  {
    match fault
    case Some(e) => Failed(e)
    case None => if found.Some? then Found(found.value) else NotFound
  }
}
