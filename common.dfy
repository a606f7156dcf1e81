/** Small definitions shared by several of the modelled source files. */
module Common {

  /** A value that may be absent: a null pointer, a failed call or a
      missing object in the modelled code. */
  datatype Option<T> = None | Some(value: T)

  lemma MulMonotone(a: nat, b: nat, c: nat)
    requires a <= b
    ensures a * c <= b * c
  {
  }
}
