/** Saving and restoring a search manager as plain data (components/utils/manager_serializer.py). */
module ManagerSerializer {
  import opened Basics
  import opened Tapes
  import opened Transitions
  import opened Automatas
  import opened Simulations
  import opened Managers

  /**
   * The saved dictionary: each of the three keys may be missing, and `otherKeys` says whether it holds
   * any key besides them. Only a dictionary with no keys at all is falsy.
   */
  datatype Data = Data(tapes: Option<seq<string>>, simCurrentState: Option<StateId>, simHistory: Option<seq<Snapshot>>,
                       otherKeys: bool)

  predicate Falsy(data: Option<Data>) {
    data == None || data == Some(Data(None, None, None, false))
  }

  /** The dictionary written for a manager: its tape words in order, and its root node's state and history. */
  function Encode(tapes: seq<TapeView>, sim: Simulation): (r: Data)
    ensures r.tapes == Some(Words(tapes))
    ensures r.simCurrentState == Some(sim.currentState) && r.simHistory == Some(sim.history) && !r.otherKeys
  {
    Data(Some(Words(tapes)), Some(sim.currentState), Some(sim.history), false)
  }

  /** `serialize_manager`: nothing for no manager. */
  function Serialize(m: Manager?): (r: Option<Data>)
    reads m, if m == null then {} else set t | t in m.tapes
    ensures m == null <==> r == None
    ensures m != null ==> r == Some(Encode(Views(m.tapes), m.sim))
  {
    if m == null then None else Some(Encode(Views(m.tapes), m.sim))
  }

  /** What a restore produces: the new manager's tape values and its root node. */
  datatype Restoration = Restoration(tapes: seq<TapeView>, sim: Simulation)

  /**
   * The restore of a truthy dictionary: a tape per stored word (an empty word cannot make a tape), then
   * a node with those tapes, the stored state (default 0) and the stored history (default empty, which
   * cannot make a node).
   */
  function Decode(data: Data): (r: Outcome<Restoration>)
    ensures r.Ok? ==> Words(r.value.tapes) == (if data.tapes.Some? then data.tapes.value else [])
    ensures r.Ok? ==> forall i :: 0 <= i < |r.value.tapes| ==> r.value.tapes[i].currentPos == 0
    ensures r.Ok? ==> r.value.sim.tapes == r.value.tapes
    ensures r.Ok? ==> r.value.sim.currentState == (if data.simCurrentState.Some? then data.simCurrentState.value else IntId(0))
    ensures r.Ok? ==> r.value.sim.history == (if data.simHistory.Some? then data.simHistory.value else [])
  {
    var words := if data.tapes.Some? then data.tapes.value else [];
    if HasEmptyWord(words) then Raised(EmptyWord)
    else
      var tapes := Rewound(words);
      var state := if data.simCurrentState.Some? then data.simCurrentState.value else IntId(0);
      var history := if data.simHistory.Some? then data.simHistory.value else [];
      match Make(tapes, Some(history), state)
      case Ok(sim) => Ok(Restoration(tapes, sim))
      case Raised(f) => Raised(f)
  }

  /**
   * `deserialize_manager`: nothing for a falsy dictionary; otherwise a new manager over fresh tapes
   * whose root node is replaced by the restored one, which is then the only visited and queued node.
   */
  method Deserialize(data: Option<Data>, automata: Automata) returns (m: Manager?, st: Status)
    ensures Falsy(data) ==> m == null && st == Done
    ensures !Falsy(data) && Decode(data.value).Raised? ==> m == null && st == Failed(Decode(data.value).fault)
    ensures !Falsy(data) && Decode(data.value).Ok? ==>
      && m != null && fresh(m) && st == Done && m.Valid() && m.automata == automata
      && Views(m.tapes) == Decode(data.value).value.tapes && m.sim == Decode(data.value).value.sim
      && m.visited == {m.sim.id} && m.queue == [m.sim]
  {
    if Falsy(data) {
      return null, Done;
    }
    var d := data.value;
    var words := if d.tapes.Some? then d.tapes.value else [];
    var tapes, made := NewTapes(words);
    if made.Failed? {
      return null, made;
    }
    var mgr := new Manager(automata, tapes);
    var state := if d.simCurrentState.Some? then d.simCurrentState.value else IntId(0);
    var history := if d.simHistory.Some? then d.simHistory.value else [];
    var sim := Make(Views(tapes), Some(history), state);
    assert Decode(d) == match sim case Ok(s) => Ok(Restoration(Views(tapes), s)) case Raised(f) => Raised(f);
    if sim.Raised? {
      return null, Failed(sim.fault);
    }
    ghost var views := Views(mgr.tapes);
    Reroot(mgr, sim.value);
    assert Views(mgr.tapes) == views;
    return mgr, Done;
  }

  /** The restored node replaces the new manager's root: it is the only visited and queued node. */
  method Reroot(m: Manager, sim: Simulation)
    modifies m`sim, m`visited, m`queue
    ensures m.sim == sim && m.visited == {sim.id} && m.queue == [sim]
  {
    m.sim := sim;
    m.visited := {sim.id};
    m.queue := [sim];
  }

  /**
   * Round trip: restoring what was saved gives back the tape words in order, the root node's state and
   * its history, with every cursor reset to 0; the restored node has the saved node's id.
   */
  lemma RoundTrip(tapes: seq<TapeView>, sim: Simulation)
    requires forall i :: 0 <= i < |tapes| ==> |tapes[i].symbols| > 0
    requires |sim.history| > 0 && sim.id == sim.history[|sim.history| - 1]
    ensures !Falsy(Some(Encode(tapes, sim)))
    ensures Decode(Encode(tapes, sim))
      == Ok(Restoration(Rewound(Words(tapes)), Simulation(Rewound(Words(tapes)), sim.history, sim.currentState, sim.id)))
  {
  }

  /** Positions are not saved: tapes over the same words save to the same dictionary. */
  lemma PositionsNotSaved(a: seq<TapeView>, b: seq<TapeView>, sim: Simulation)
    requires Words(a) == Words(b)
    ensures Encode(a, sim) == Encode(b, sim)
  {
  }

  /** A dictionary without a history cannot be restored, whatever else it holds. */
  lemma MissingHistoryFails(words: seq<string>, state: Option<StateId>, otherKeys: bool)
    requires forall i :: 0 <= i < |words| ==> |words[i]| > 0
    ensures Decode(Data(Some(words), state, None, otherKeys)) == Raised(EmptyHistory)
  {
  }

  /**
   * A dictionary holding only keys the serializer does not use is truthy, so the restore goes on with
   * the defaults and raises on the empty history.
   */
  lemma UnrelatedKeysFail()
    ensures !Falsy(Some(Data(None, None, None, true)))
    ensures Decode(Data(None, None, None, true)) == Raised(EmptyHistory)
  {
  }

  /** A saved empty word cannot be restored. */
  lemma EmptyWordFails(words: seq<string>, i: nat, rest: Data)
    requires i < |words| && words[i] == []
    ensures Decode(rest.(tapes := Some(words))) == Raised(EmptyWord)
  {
    assert HasEmptyWord(words);
  }
}
