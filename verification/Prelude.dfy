/** Machine integers, bytes and the option type shared by every module. */
module Prelude {

  const MAX_UINT16: int := 0xFFFF
  const MAX_UINT32: int := 0xFFFF_FFFF
  const MAX_UINT64: int := 0xFFFF_FFFF_FFFF_FFFF

  /** Values Go keeps in a byte, uint16, uint32 or uint64. Every wrap-around is written out where it can happen,
      and the invariants state the ranges. */
  type U8 = int
  type U16 = int
  type U32 = int
  type U64 = int

  datatype Option<+T> = None | Some(value: T)

  /** atomic.AddUint32(&n, 1). */
  function Inc32(n: U32): U32 { if n == MAX_UINT32 then 0 else n + 1 }

  /** Go's wrapping addition and multiplication on uint64. */
  function Add64(a: U64, b: U64): U64 { (a + b) % (MAX_UINT64 + 1) }
  function Mul64(a: U64, b: U64): U64 { (a * b) % (MAX_UINT64 + 1) }

  function Max(a: int, b: int): int { if a < b then b else a }

  /** `order` lists every element of `keys` exactly once: one iteration order of a Go map. */
  ghost predicate Enumerates<T(!new)>(order: seq<T>, keys: set<T>) {
    && (forall x :: x in order <==> x in keys)
    && (forall i, j :: 0 <= i < j < |order| ==> order[i] != order[j])
  }
}
