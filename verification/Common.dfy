/** Types and notions shared by the modules of the model. */
module Common {
  datatype Option<+T> = None | Some(value: T)

  /** C's `unsigned` counts modulo this. */
  const UNSIGNED: nat := 0x1_0000_0000

  /** The encodings of base types, as DWARF names them. */
  datatype Encoding = Boolean | AddressLike | Unsigned | Signed | UnsignedChar | SignedChar
                    | Float | ComplexFloat | OtherEncoding

  /** The ranges of `m` bytes at `a` and of `n` bytes at `b` do not overlap. */
  predicate Disjoint(a: nat, m: nat, b: nat, n: nat) {
    a + m <= b || b + n <= a
  }
}
