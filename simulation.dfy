/** A node of the breadth-first search (backend/simulation.py). */
module Simulations {
  import opened Basics
  import opened Tapes
  import opened Transitions

  /** One history entry `[state, pos1, pos2, ...]`: a state followed by one cursor per tape. */
  datatype Snapshot = Snapshot(state: StateId, positions: seq<nat>)

  /**
   * A search node. `id` is fixed at construction from the last history entry; the tapes are held
   * as values, since the search deep-copies them for every candidate transition.
   */
  datatype Simulation = Simulation(tapes: seq<TapeView>, history: seq<Snapshot>, currentState: StateId, id: Snapshot)

  /** `[0] * n`. */
  function Zeros(n: nat): (r: seq<nat>)
    ensures |r| == n && forall i :: 0 <= i < n ==> r[i] == 0
  {
    seq(n, i => 0)
  }

  /** The history a Simulation gets when none is passed: one all-zero entry whose state column is 0. */
  function DefaultHistory(n: nat): seq<Snapshot> {
    [Snapshot(IntId(0), Zeros(n))]
  }

  /**
   * `Simulation(tapes, history, currentState)`, with Python's defaults when an argument is omitted.
   * An explicitly empty history fails when the id is computed from `history[-1]`.
   */
  function Make(tapes: seq<TapeView>, history: Option<seq<Snapshot>> := None, currentState: StateId := IntId(0))
    : (r: Outcome<Simulation>)
    ensures history.Some? && history.value == [] <==> r == Raised(EmptyHistory)
    ensures r.Ok? ==> r.value.tapes == tapes && r.value.currentState == currentState
    ensures r.Ok? ==> r.value.history == (if history.Some? then history.value else DefaultHistory(|tapes|))
    ensures r.Ok? ==> r.value.id == r.value.history[|r.value.history| - 1]
  {
    var h := if history.Some? then history.value else DefaultHistory(|tapes|);
    if |h| == 0 then Raised(EmptyHistory) else Ok(Simulation(tapes, h, currentState, h[|h| - 1]))
  }

  /** `__eq__`: two simulations are equal exactly when their ids are. */
  predicate Same(a: Simulation, b: Simulation) {
    a.id == b.id
  }

  /** Without arguments the node starts in state 0 with the single all-zero entry of width `1 + |tapes|`. */
  lemma DefaultSimulation(tapes: seq<TapeView>)
    ensures Make(tapes).Ok?
    ensures Make(tapes).value.currentState == IntId(0)
    ensures Make(tapes).value.history == [Snapshot(IntId(0), Zeros(|tapes|))]
    ensures Make(tapes).value.id == Snapshot(IntId(0), Zeros(|tapes|))
  {
  }

  /** The two-tape example: `Simulation([Tape("abc"), Tape("def")])` has history `[[0, 0, 0]]`. */
  lemma DefaultSimulationExample()
    ensures Make([TapeView("abc", 0, 'a'), TapeView("def", 0, 'd')]).value.history
      == [Snapshot(IntId(0), [0, 0])]
  {
    assert Zeros(2) == [0, 0];
  }

  /** Equality ignores the tapes, the state field and every history entry but the last. */
  lemma SameIffLastEntriesAgree(ta: seq<TapeView>, ha: seq<Snapshot>, sa: StateId,
                                tb: seq<TapeView>, hb: seq<Snapshot>, sb: StateId)
    requires |ha| > 0 && |hb| > 0
    ensures Same(Make(ta, Some(ha), sa).value, Make(tb, Some(hb), sb).value) <==> ha[|ha| - 1] == hb[|hb| - 1]
  {
  }

  /** The state column of the id is not checked against the state field. */
  lemma StateNotChecked()
    ensures Make([], Some([Snapshot(IntId(1), [])]), IntId(2)).value.currentState
      != Make([], Some([Snapshot(IntId(1), [])]), IntId(2)).value.id.state
  {
  }
}
