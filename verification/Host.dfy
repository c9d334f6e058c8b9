/** What the ledger host gives every contract: addresses, fixed-width integers
    and optional values. Overflow checks are on in the release profile, so an
    arithmetic result outside these ranges aborts the call. */
module Host {

  datatype Address = Address(id: nat)

  datatype Option<+T> = None | Some(value: T)

  const U32_MAX := 0xFFFF_FFFF
  const U64_MAX := 0xFFFF_FFFF_FFFF_FFFF
  const I128_MAX := 0x7FFF_FFFF_FFFF_FFFF_FFFF_FFFF_FFFF_FFFF

  type u32 = n: int | 0 <= n <= U32_MAX witness 0
  type u64 = n: int | 0 <= n <= U64_MAX witness 0
  type i128 = n: int | -I128_MAX - 1 <= n <= I128_MAX witness 0

  /** A call either takes the state to `next` or, when `next` is None, panics and
      leaves it as it was. */
  ghost predicate Commits<W>(before: W, next: Option<W>, after: W, ok: bool) {
    && ok == next.Some?
    && after == if ok then next.value else before
  }
}
