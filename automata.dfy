/** The backend automaton container (backend/automata.py). */
module Automatas {
  import opened Basics
  import opened SymbolVectors
  import opened Transitions

  /** A transition table: each source state keyed to its transitions in insertion order. */
  type Table = map<StateId, seq<Transition>>

  /** `transitions.get(state, [])`. */
  function Bucket(m: Table, k: StateId): seq<Transition> {
    if k in m then m[k] else []
  }

  /** Every transition of the table filed under its own source state. */
  ghost predicate Filed(m: Table) {
    forall k, i :: k in m && 0 <= i < |m[k]| ==> m[k][i].fromState == k
  }

  /** `add_transition`: append to the bucket of the source state, creating the bucket if absent. */
  function Added(m: Table, t: Transition): (r: Table)
    ensures r.Keys == m.Keys + {t.fromState}
    ensures r[t.fromState] == Bucket(m, t.fromState) + [t]
    ensures forall k :: k in m && k != t.fromState ==> r[k] == m[k]
    ensures Filed(m) ==> Filed(r)
  {
    if t.fromState in m then m[t.fromState := m[t.fromState] + [t]] else m[t.fromState := [t]]
  }

  /** A state name after renaming `o` to `n`. */
  function RenameId(s: StateId, o: StateId, n: StateId): StateId {
    if s == o then n else s
  }

  /** A bucket whose transitions all get source `n`. */
  function SourcesSet(b: seq<Transition>, n: StateId): (r: seq<Transition>)
    ensures |r| == |b|
    ensures forall i :: 0 <= i < |b| ==> r[i] == b[i].(fromState := n)
  {
    seq(|b|, i requires 0 <= i < |b| => b[i].(fromState := n))
  }

  /** A bucket whose targets equal to `o` become `n`. */
  function TargetsRenamed(b: seq<Transition>, o: StateId, n: StateId): (r: seq<Transition>)
    ensures |r| == |b|
    ensures forall i :: 0 <= i < |b| ==>
      r[i].fromState == b[i].fromState && r[i].symbolsVector == b[i].symbolsVector
      && r[i].targetState == RenameId(b[i].targetState, o, n)
  {
    seq(|b|, i requires 0 <= i < |b| => if b[i].targetState == o then b[i].(targetState := n) else b[i])
  }

  /** The table after the bucket of `o` has moved to `n` (overwriting any bucket of `n`). */
  function Moved(m: Table, o: StateId, n: StateId): Table {
    if o in m then (m - {o})[n := SourcesSet(m[o], n)] else m
  }

  /** The table after `rename_state(o, n)` with `o != n`. */
  function RenamedTable(m: Table, o: StateId, n: StateId): Table {
    var moved := Moved(m, o, n);
    map k | k in moved :: TargetsRenamed(moved[k], o, n)
  }

  /** After a rename no transition anywhere still targets the old name. */
  lemma NoTargetLeftAfterRename(m: Table, o: StateId, n: StateId, k: StateId, i: nat)
    requires o != n && k in RenamedTable(m, o, n) && i < |RenamedTable(m, o, n)[k]|
    ensures RenamedTable(m, o, n)[k][i].targetState != o
  {
  }

  /** The old bucket moves to key `n`, in order, with every source rewritten to `n`. */
  lemma RenameMovesBucket(m: Table, o: StateId, n: StateId)
    requires o != n && o in m
    ensures RenamedTable(m, o, n).Keys == m.Keys - {o} + {n}
    ensures |RenamedTable(m, o, n)[n]| == |m[o]|
    ensures forall i :: 0 <= i < |m[o]| ==>
      RenamedTable(m, o, n)[n][i] == Transition(n, m[o][i].symbolsVector, RenameId(m[o][i].targetState, o, n))
  {
  }

  /** Buckets of other states keep their transitions and order; only targets `o` change. */
  lemma RenameKeepsOtherBuckets(m: Table, o: StateId, n: StateId, k: StateId)
    requires o != n && k in m && k != o && (k == n ==> o !in m)
    ensures k in RenamedTable(m, o, n)
    ensures RenamedTable(m, o, n)[k] == TargetsRenamed(m[k], o, n)
  {
  }

  /** Renaming keeps the table filed by source state. */
  lemma RenameKeepsFiled(m: Table, o: StateId, n: StateId)
    requires o != n && Filed(m)
    ensures Filed(RenamedTable(m, o, n))
  {
    var r: Table := RenamedTable(m, o, n);
    forall k: StateId, i: int | k in r && 0 <= i < |r[k]|
      ensures r[k][i].fromState == k
    {
      if o in m && k == n {
        assert r[k][i].fromState == SourcesSet(m[o], n)[i].fromState;
      } else {
        assert k in m && k != o;
        assert r[k][i].fromState == m[k][i].fromState;
      }
    }
  }

  /** Rewrites the source of every transition of a bucket, as the loop over the moved bucket does. */
  method SetSources(b: seq<Transition>, n: StateId) returns (r: seq<Transition>)
    ensures r == SourcesSet(b, n)
  {
    r := b;
    var i := 0;
    while i < |r|
      invariant 0 <= i <= |r| == |b|
      invariant forall j :: 0 <= j < i ==> r[j] == b[j].(fromState := n)
      invariant forall j :: i <= j < |r| ==> r[j] == b[j]
    {
      r := r[i := r[i].(fromState := n)];
      i := i + 1;
    }
  }

  /** Rewrites every target equal to `o` into `n`, as the inner loop over one bucket does. */
  method SetTargets(b: seq<Transition>, o: StateId, n: StateId) returns (r: seq<Transition>)
    ensures r == TargetsRenamed(b, o, n)
  {
    r := b;
    var i := 0;
    while i < |r|
      invariant 0 <= i <= |r| == |b|
      invariant forall j :: 0 <= j < i ==> r[j] == TargetsRenamed(b, o, n)[j]
      invariant forall j :: i <= j < |r| ==> r[j] == b[j]
    {
      if r[i].targetState == o {
        r := r[i := r[i].(targetState := n)];
      }
      i := i + 1;
    }
  }

  /** The loop over every bucket of the table that rewrites targets `o` into `n`. */
  method SetAllTargets(m: Table, o: StateId, n: StateId) returns (r: Table)
    ensures r.Keys == m.Keys
    ensures forall k :: k in m ==> r[k] == TargetsRenamed(m[k], o, n)
  {
    r := m;
    var keys := m.Keys;
    while keys != {}
      invariant keys <= r.Keys == m.Keys
      invariant forall k :: k in keys ==> r[k] == m[k]
      invariant forall k :: k in r && k !in keys ==> r[k] == TargetsRenamed(m[k], o, n)
      decreases keys
    {
      var k :| k in keys;
      var bucket := SetTargets(r[k], o, n);
      r := r[k := bucket];
      keys := keys - {k};
    }
  }

  class Automata {
    var states: set<StateId>
    var alphabet: set<char>
    var transitions: Table
    var startState: Option<StateId>
    var acceptStates: set<StateId>

    /** Accept states are states, and so is the start state once set. */
    ghost predicate Consistent()
      reads this
    {
      acceptStates <= states && (startState.Some? ==> startState.value in states)
    }

    constructor ()
      ensures states == {} && alphabet == {} && transitions == map[] && acceptStates == {}
      ensures startState == None
      ensures Consistent()
    {
      states, alphabet, transitions, startState, acceptStates := {}, {}, map[], None, {};
    }

    method AddState(state: StateId, isAccept: bool)
      modifies this`states, this`acceptStates
      ensures states == old(states) + {state}
      ensures acceptStates == if isAccept then old(acceptStates) + {state} else old(acceptStates)
      ensures old(Consistent()) ==> Consistent()
    {
      states := states + {state};
      if isAccept {
        acceptStates := acceptStates + {state};
      }
    }

    method SetStartState(state: StateId)
      modifies this`startState, this`states
      ensures startState == Some(state) && states == old(states) + {state}
      ensures old(Consistent()) ==> Consistent()
    {
      startState := Some(state);
      states := states + {state};
    }

    method AddTransition(t: Transition)
      modifies this`transitions
      ensures transitions == Added(old(transitions), t)
    {
      if t.fromState !in transitions {
        transitions := transitions[t.fromState := []];
      }
      transitions := transitions[t.fromState := transitions[t.fromState] + [t]];
    }

    /** Rename a state everywhere: state sets, start state, its bucket, and every target naming it. */
    method RenameState(oldName: StateId, newName: StateId)
      modifies this
      ensures oldName == newName ==> unchanged(this)
      ensures oldName != newName ==>
        && states == (if oldName in old(states) then old(states) - {oldName} + {newName} else old(states))
        && acceptStates == (if oldName in old(acceptStates) then old(acceptStates) - {oldName} + {newName}
                            else old(acceptStates))
        && startState == (if old(startState) == Some(oldName) then Some(newName) else old(startState))
        && transitions == RenamedTable(old(transitions), oldName, newName)
      ensures alphabet == old(alphabet)
      ensures old(Consistent()) ==> Consistent()
    {
      if oldName == newName {
        return;
      }
      RenameInSets(oldName, newName);
      RenameInTable(oldName, newName);
    }

    /** The renaming of the state sets and of the start state. */
    method RenameInSets(oldName: StateId, newName: StateId)
      modifies this`states, this`acceptStates, this`startState
      ensures states == (if oldName in old(states) then old(states) - {oldName} + {newName} else old(states))
      ensures acceptStates == (if oldName in old(acceptStates) then old(acceptStates) - {oldName} + {newName}
                               else old(acceptStates))
      ensures startState == (if old(startState) == Some(oldName) then Some(newName) else old(startState))
    {
      if oldName in states {
        states := states - {oldName} + {newName};
      }
      if oldName in acceptStates {
        acceptStates := acceptStates - {oldName} + {newName};
      }
      if startState == Some(oldName) {
        startState := Some(newName);
      }
    }

    /** The bucket of the old name moves to the new one with its sources renamed, then every target is renamed. */
    method RenameInTable(oldName: StateId, newName: StateId)
      modifies this`transitions
      ensures transitions == RenamedTable(old(transitions), oldName, newName)
    {
      var moved := transitions;
      if oldName in moved {
        var bucket := moved[oldName];
        moved := (moved - {oldName})[newName := bucket];
        bucket := SetSources(bucket, newName);
        moved := moved[newName := bucket];
      }
      assert moved == Moved(transitions, oldName, newName);
      transitions := SetAllTargets(moved, oldName, newName);
    }
  }
}
