/** Rust's `i64`, the type of every id and token counter in the source, and of
    SQLite's INTEGER column. */
module Int64 {

  const MinI64: int := -0x8000_0000_0000_0000
  const MaxI64: int := 0x7FFF_FFFF_FFFF_FFFF

  type i64 = x: int | MinI64 <= x <= MaxI64
}
