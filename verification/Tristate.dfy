/** The three-valued logic of configuration symbols, n < m < y. */
module Tristate {
  type Tri = t: int | 0 <= t <= 2

  const NO: Tri := 0
  const MOD: Tri := 1
  const YES: Tri := 2

  function TriAnd(a: Tri, b: Tri): Tri { if a < b then a else b }

  function TriOr(a: Tri, b: Tri): Tri { if a > b then a else b }

  function TriNot(a: Tri): Tri { 2 - a }

  function FromBool(b: bool): Tri { if b then YES else NO }

  /** What a symbol without an `m` state makes of a value. */
  function Promote(a: Tri): Tri { if a == MOD then YES else a }

  function TriName(t: Tri): string { if t == NO then "n" else if t == MOD then "m" else "y" }

  datatype Option<+T> = None | Some(value: T)
}
