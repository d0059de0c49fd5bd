/** Value types of the .NET runtime that the domain layer uses. */
module Primitives {

  /** `T?`: a nullable reference or a `Nullable<T>` struct. */
  datatype Nullable<+T> = Null | Value(value: T) {
    predicate HasValue() { Value? }
  }

  /** C# `int`: a 32-bit two's-complement integer. */
  newtype int32 = x: int | -0x8000_0000 <= x < 0x8000_0000

  /** `System.Guid`: 128 bits; `Guid.Empty` is all zeros. */
  newtype Guid = x: int | 0 <= x < 0x1_0000_0000_0000_0000_0000_0000_0000_0000

  const EmptyGuid: Guid := 0

  /** `System.DateTime`, kept opaque: only stored and compared for equality. */
  datatype DateTime = DateTime(ticks: int)

  /** A `yyyyMMddHHmmss` rendering of the clock: fourteen decimal digits. */
  type Timestamp = s: string | |s| == 14 && forall i | 0 <= i < |s| :: '0' <= s[i] <= '9'
    witness "00000000000000"
}
