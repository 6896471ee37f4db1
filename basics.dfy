/** Shared vocabulary: optional values and the Python exceptions the model makes explicit. */
module Basics {

  datatype Option<T> = None | Some(value: T)

  /** The exceptions the modelled Python code can raise, named by their cause. */
  datatype Fault =
    | PopFromEmptyQueue      // IndexError: list.pop(0) on an empty search queue
    | UnboundSim             // UnboundLocalError: the search loop never bound `sim`
    | EmptyHistory           // IndexError: history[-1] on an empty history
    | TapeIndexOutOfRange    // IndexError: a snapshot has more columns than there are tapes
    | EmptyWord              // IndexError: Tape(symbols) reads symbols[0] of an empty word
    | NoManager              // AttributeError: None has no attribute 'automata'
    | AddAfterFinish         // Exception: words cannot be added once the run is finished
    | PopIndexOutOfRange     // IndexError: list.pop(i) with i < -len(list)

  /** A call that either returns a value or raises. */
  datatype Outcome<T> = Ok(value: T) | Raised(fault: Fault)

  /** A call that returns nothing or raises. */
  datatype Status = Done | Failed(fault: Fault)

  function Min(a: int, b: int): int { if a <= b then a else b }
  function Max(a: int, b: int): int { if a >= b then a else b }

  /** Python's `s[:k]` for a non-negative `k`. */
  function Take<T>(s: seq<T>, k: nat): (r: seq<T>)
    ensures |r| == Min(k, |s|)
    ensures forall i :: 0 <= i < |r| ==> r[i] == s[i]
  {
    if k <= |s| then s[..k] else s
  }
}
