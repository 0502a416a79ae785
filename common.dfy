/** Types shared by the value engine and statement validation: return codes,
    an optional value, the C++ `int` width and the `size_t` conversion. */
module Common {

  datatype Option<T> = None | Some(value: T)

  /** The return codes the core produces. `Other` stands for any further code
      that a per-type behaviour may hand back and the core passes on unchanged. */
  datatype RC =
    | SUCCESS
    | INVALID_ARGUMENT
    | VALUE_TYPE_MISMATCH
    | SCHEMA_TABLE_NOT_EXIST
    | SCHEMA_FIELD_MISSING
    | SCHEMA_FIELD_TYPE_MISMATCH
    | Other(code: int)

  /** A C++ `int` / `int32_t`. */
  newtype int32 = x: int | -0x8000_0000 <= x < 0x8000_0000

  const SIZE_T_MODULUS: int := 0x1_0000_0000_0000_0000

  /** `static_cast<size_t>(x)`: the value modulo 2^64 (the two's complement
      reinterpretation of a negative `int`). */
  function SizeT(x: int): (r: nat)
    ensures r < SIZE_T_MODULUS
    ensures 0 <= x < SIZE_T_MODULUS ==> r == x
    ensures -SIZE_T_MODULUS <= x < 0 ==> r == x + SIZE_T_MODULUS
  {
    x % SIZE_T_MODULUS
  }
}
