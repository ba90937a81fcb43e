/** Nullable column values and the truthiness rules the data-access code
    applies to them (`x or default`, `if a and b`). */
module Nullable {

  /** A column value that may be SQL NULL (Python `None`). */
  datatype Option<+T> = None | Some(value: T)

  /** Python truthiness of a nullable text column: `None` and `""` are false. */
  predicate Truthy(s: Option<string>) {
    s.Some? && s.value != ""
  }

  /** `s or fallback` for a nullable text column. */
  function OrElse(s: Option<string>, fallback: string): string {
    if Truthy(s) then s.value else fallback
  }

  /** Python truthiness of a nullable numeric column: `None` and `0` are false. */
  predicate TruthyReal(x: Option<real>) {
    x.Some? && x.value != 0.0
  }
}
