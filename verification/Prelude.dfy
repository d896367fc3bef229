/** Result types, and the two facts about maps that most modules need. */
module Prelude {

  datatype Option<+T> = None | Some(value: T)

  datatype Result<+T, +E> = Ok(value: T) | Err(error: E)

  const MAX_UINT64: nat := 0xFFFF_FFFF_FFFF_FFFF

  function Max(a: int, b: int): int { if a < b then b else a }

  function Min(a: int, b: int): int { if a < b then a else b }

  /** Quotient and remainder of naturals (Go's and Dafny's agree there). */
  function Quo(a: nat, b: nat): nat
    requires b > 0
  {
    a / b
  }

  function Rem(a: nat, b: nat): (r: nat)
    requires b > 0
    ensures r < b
  {
    a % b
  }

  lemma QuoRem(a: nat, b: nat)
    requires b > 0
    ensures Quo(a, b) * b + Rem(a, b) == a
  {
  }

  /** m[k], or `zero` when k is absent: Go's reading of a missing map key. */
  function GetOr<K, V>(m: map<K, V>, k: K, zero: V): V {
    if k in m then m[k] else zero
  }
}
