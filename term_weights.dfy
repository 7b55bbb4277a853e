/** The weight dictionaries FiPy's terms return from `_getWeight`: for each
    role, `implicit` (assembled into the matrix) or `explicit` (evaluated from
    the old values), the coefficients of a face's stencil. */
module TermWeights {

  /** A weight role. */
  type Role = string

  /** The coefficients of one role, keyed by stencil entry. */
  type Coefficients = map<string, int>

  const Implicit: Role := "implicit"
  const Explicit: Role := "explicit"
}
