/** Success/failure values used for the two error kinds of the library:
    an out-of-bounds `get` (a panic in the source) and a construction
    that the source's type system rejects (a compile error). */
module Results {

  datatype Result<+T, +E> = Ok(value: T) | Err(error: E)
}
