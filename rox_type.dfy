/** Runtime values of the language (src/rox_type.rs). The same type carries
    the literal payload of a token. */
module RoxTypes {

  /** Every runtime value is exactly one of these four kinds. The source's
      `Number` payload is an IEEE double; here it is an exact `real`, so the
      model speaks about type dispatch and shape, not rounding. The source type
      derives `Clone` but not equality; a Dafny datatype is a value, so cloning
      is the identity and nothing is shared. */
  datatype RoxType =
    | String(text: string)
    | Number(number: real)
    | Nil
    | Boolean(truth: bool)
}
