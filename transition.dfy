/** Transitions of the backend automaton (backend/transition.py). */
module Transitions {
  import opened SymbolVectors

  /** State identifiers are opaque: the tests use integers, the editor passes state names. */
  datatype StateId = IntId(n: int) | NameId(name: string)

  /**
   * The constructor stores its three arguments as given and validates nothing; a self-loop
   * (fromState == targetState) is an ordinary transition.
   */
  datatype Transition = Transition(fromState: StateId, symbolsVector: SymbolVector, targetState: StateId)
}
