/** Optional values and results, used wherever the Python code returns None or raises. */
module Wrappers {

  datatype Option<+T> = None | Some(value: T)

  datatype Result<+T, +E> = Ok(value: T) | Err(error: E)

  /** Python truthiness of an optional string: None and "" are both falsy. */
  predicate Truthy(o: Option<string>)
  {
    o.Some? && o.value != ""
  }

  /** `o or fallback` for an optional string. */
  function OrElse(o: Option<string>, fallback: string): string
  {
    if Truthy(o) then o.value else fallback
  }
}

/** The exceptions the modelled code raises, catches or lets through. */
module Errors {

  datatype Error =
    /** `DimensionMismatchError(stored_dim, new_dim)` from `ensure_vec_table`. */
    | DimensionMismatch(stored: int, requested: int)
    /** `int(value)` of a stored `embedding_dim` that is not a decimal numeral (ValueError). */
    | BadMetaValue(value: string)
    /** `id TEXT UNIQUE` violated by an insert. */
    | DuplicateId(id: string)
    /** The FTS5 engine rejects the built MATCH expression. */
    | FtsSyntax(query: string)
    /** The vector engine rejects a vector whose length is not the table's width. */
    | VectorWidth(expected: nat, got: nat)
    /** The vector table already holds a row with this rowid. */
    | DuplicateVector(rowid: int)
    /** The vector engine rejects a negative `k`. */
    | NegativeK(k: int)
    /** Any failure of an embedding provider call (network, HTTP status, payload). */
    | ProviderFailed
    /** `ValueError("Unknown embedding provider: …")` from `_create_embedding_provider`. */
    | UnknownProvider(name: string)
}
