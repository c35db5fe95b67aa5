/**
 * Values the mapper receives from its callers and the errors its
 * orchestration code can raise.
 */
module MapperTypes {

  /** A complex coefficient, carried along and never computed with. */
  datatype Complex = Complex(re: real, im: real)

  /** one item of a fermionic operator: a key such as "+_0 -_1" and its coefficient. */
  datatype Term = Term(key: string, coeff: Complex)

  /** A `FermionicOp`: its items in iteration order and its register length. */
  datatype FermionicOp = FermionicOp(terms: seq<Term>, registerLength: int)

  /** A coupling map, reduced to the distance matrix the mapper reads from it. */
  datatype CouplingMap = CouplingMap(distances: seq<seq<real>>)

  /** The exceptions the orchestration code raises itself. */
  datatype MapperError =
    | MissingUnderscore(token: string)  // IndexError: token.split('_') has no second field
    | NotAnInteger(field: string)       // ValueError: int() rejects the field
    | Int64Overflow                     // OverflowError: an index does not fit np.int64
    | TableTooShort(tableLength: nat, registerLength: int)  // IndexError: pauli_table[i]
    | ModeOutOfRange(index: int)        // IndexError: creation_ops[idx] / annihilation_ops[idx]
}
