/**
 * The run controller between the editor and the search engine (components/managers/run_manager.py):
 * it builds the backend from the editor's automaton and words, replays the history the search returned
 * one snapshot at a time, and re-runs the search from the replayed prefix when words or transitions are
 * edited during a run. Canvas colouring, message boxes, logging and the database are not modelled.
 */
module RunManagers {
  import opened Basics
  import opened Tapes
  import opened SymbolVectors
  import opened Transitions
  import opened Automatas
  import opened Simulations
  import opened Managers
  import opened Constants
  import G = GuiTransitions
  import opened AutomataManagers

  function Last(h: seq<Snapshot>): Snapshot
    requires |h| > 0
  {
    h[|h| - 1]
  }

  // ---------------------------------------------------------------------------------------------
  // Patching the kept snapshots

  /** A snapshot widened with zero cursors until it has `w` of them; a wider one is left alone. */
  function Pad(s: Snapshot, w: nat): Snapshot {
    if |s.positions| < w then Snapshot(s.state, s.positions + Zeros(w - |s.positions|)) else s
  }

  /** Every snapshot of a history padded to `w` cursors. */
  function PadAll(h: seq<Snapshot>, w: nat): (r: seq<Snapshot>)
    ensures |r| == |h| && forall i :: 0 <= i < |h| ==> r[i] == Pad(h[i], w)
  {
    seq(|h|, i requires 0 <= i < |h| => Pad(h[i], w))
  }

  /**
   * The history after its first `k` snapshots were padded in place: `history[:k]` copies the list
   * but not the snapshot lists in it, so padding the copy pads the history as well.
   */
  function PadPrefix(h: seq<Snapshot>, k: nat, w: nat): (r: seq<Snapshot>)
    ensures |r| == |h| && forall i :: 0 <= i < |h| ==> r[i] == if i < k then Pad(h[i], w) else h[i]
  {
    seq(|h|, i requires 0 <= i < |h| => if i < k then Pad(h[i], w) else h[i])
  }

  /** Padding keeps the state and the cursors there were, adds zeros up to width `w`, and is idempotent. */
  lemma PadShape(s: Snapshot, w: nat)
    ensures Pad(s, w).state == s.state
    ensures |Pad(s, w).positions| == Max(|s.positions|, w)
    ensures Pad(s, w).positions[..|s.positions|] == s.positions
    ensures forall i :: |s.positions| <= i < w ==> Pad(s, w).positions[i] == 0
    ensures Pad(Pad(s, w), w) == Pad(s, w)
  {
  }

  /** The backup and the history's prefix are the same padded snapshots; the rest of the history is untouched. */
  lemma BackupSharesHistory(h: seq<Snapshot>, k: nat, w: nat)
    ensures Take(PadPrefix(h, k, w), k) == PadAll(Take(h, k), w)
    ensures forall i :: k <= i < |h| ==> PadPrefix(h, k, w)[i] == h[i]
  {
  }

  /** Column `col` of snapshot `j` set to 0, when both exist. */
  function ZeroAt(h: seq<Snapshot>, j: nat, col: nat): seq<Snapshot> {
    if j < |h| && col < |h[j].positions| then h[j := Snapshot(h[j].state, h[j].positions[col := 0])] else h
  }

  /**
   * Zeroing a column changes one cursor of one snapshot and nothing else, and it commutes with taking
   * a prefix that contains that snapshot.
   */
  lemma ZeroAtShape(h: seq<Snapshot>, j: nat, col: nat, k: nat)
    ensures |ZeroAt(h, j, col)| == |h|
    ensures forall i :: 0 <= i < |h| && i != j ==> ZeroAt(h, j, col)[i] == h[i]
    ensures j < |h| ==>
      (ZeroAt(h, j, col)[j].state == h[j].state
       && |ZeroAt(h, j, col)[j].positions| == |h[j].positions|
       && forall c :: 0 <= c < |h[j].positions| ==>
            ZeroAt(h, j, col)[j].positions[c] == if c == col then 0 else h[j].positions[c])
    ensures j < k ==> Take(ZeroAt(h, j, col), k) == ZeroAt(Take(h, k), j, col)
  {
  }

  /** The tape at `k` given a new word, its cursor and its cached symbol left as they were. */
  function Reworded(vs: seq<TapeView>, k: nat, w: string): (r: seq<TapeView>)
    ensures |r| == |vs|
  {
    if k < |vs| then vs[k := TapeView(w, vs[k].currentPos, vs[k].symbol)] else vs
  }

  // ---------------------------------------------------------------------------------------------
  // Removing a word: Python's list.pop

  /** The position `list.pop(idx)` removes from a list of length `n`, or None when it raises. */
  function PopIndex(n: nat, idx: int): (r: Option<nat>)
    ensures r.Some? ==> r.value < n
  {
    if 0 <= idx < n then Some(idx) else if -(n as int) <= idx < 0 then Some(n + idx) else None
  }

  function RemoveAt<T>(s: seq<T>, k: nat): (r: seq<T>)
    requires k < |s|
    ensures |r| == |s| - 1
    ensures forall i :: 0 <= i < |r| ==> r[i] == if i < k then s[i] else s[i + 1]
  {
    s[..k] + s[k + 1..]
  }

  /** The words after `remove_word(idx)`: the last one without or past an index, else `words.pop(idx)`. */
  function RemovedWord(words: seq<string>, idx: Option<int>): Outcome<seq<string>>
    requires |words| > 0
  {
    if idx.None? || idx.value >= |words| then Ok(words[..|words| - 1])
    else
      match PopIndex(|words|, idx.value)
      case None => Raised(PopIndexOutOfRange)
      case Some(k) => Ok(RemoveAt(words, k))
  }

  /**
   * The manager's tapes after `remove_word(idx)` with `n` words before the call: the last tape if there
   * is one, or `tapes.pop(idx)` when `idx < len(tapes)`.
   */
  function RemovedTape<T>(tapes: seq<T>, n: nat, idx: Option<int>): Outcome<seq<T>> {
    if idx.None? || idx.value >= n then Ok(if |tapes| > 0 then tapes[..|tapes| - 1] else tapes)
    else if idx.value < |tapes| then
      match PopIndex(|tapes|, idx.value)
      case None => Raised(PopIndexOutOfRange)
      case Some(k) => Ok(RemoveAt(tapes, k))
    else Ok(tapes)
  }

  /**
   * With one tape per word, removing a word removes the tape at the same index (the last one for no
   * index or one past the end, Python's negative indexing otherwise), and the two lists stay aligned.
   */
  lemma RemovalKeepsTapesAligned<T>(words: seq<string>, tapes: seq<T>, idx: Option<int>)
    requires |words| > 0 && |tapes| == |words|
    ensures RemovedWord(words, idx).Ok? <==> RemovedTape(tapes, |words|, idx).Ok?
    ensures RemovedWord(words, idx).Ok? ==>
      var k := if idx.None? || idx.value >= |words| then |words| - 1 else PopIndex(|words|, idx.value).value;
      RemovedWord(words, idx).value == RemoveAt(words, k) && RemovedTape(tapes, |words|, idx).value == RemoveAt(tapes, k)
    ensures RemovedWord(words, idx).Raised? <==> idx.Some? && idx.value < -|words|
  {
    var n := |words|;
    if idx.None? || idx.value >= n {
      assert words[..n - 1] == RemoveAt(words, n - 1);
      assert tapes[..n - 1] == RemoveAt(tapes, n - 1);
    }
  }

  /**
   * The snapshot columns are not removed with the word, so the tape after the removed one is moved to
   * the removed tape's cursor when the cursors are restored.
   */
  lemma RemovedColumnStays(vs: seq<TapeView>, ps: seq<nat>, k: nat)
    requires k + 1 < |vs| && |ps| == |vs|
    ensures Restored(RemoveAt(vs, k), ps)[k] == Seek(vs[k + 1], ps[k])
  {
  }

  // ---------------------------------------------------------------------------------------------
  // Compiling the editor's automaton

  /** An editor transition as values: source and target state names and the condition vectors. */
  datatype Edge = Edge(source: string, target: string, vectors: seq<seq<char>>)

  function EdgeOf(t: G.Transition): Edge
    reads t, t.source, t.target
  {
    Edge(t.source.name, t.target.name, t.transitionVectors)
  }

  function Edges(ts: seq<G.Transition>): (r: seq<Edge>)
    reads ts, set t | t in ts :: t.source, set t | t in ts :: t.target
    ensures |r| == |ts| && forall i :: 0 <= i < |ts| ==> r[i] == EdgeOf(ts[i])
  {
    seq(|ts|, i requires 0 <= i < |ts| reads ts, set t | t in ts :: t.source, set t | t in ts :: t.target => EdgeOf(ts[i]))
  }

  /** The backend transition one condition vector of an editor transition becomes. */
  function Backend(source: string, vec: seq<char>, target: string): Transition {
    Transition(NameId(source), SymbolVector(vec), NameId(target))
  }

  /** `add_transition` of one backend transition per vector, in order. */
  function AddVectors(m: Table, source: string, target: string, vecs: seq<seq<char>>): Table
    decreases |vecs|
  {
    if |vecs| == 0 then m else AddVectors(Added(m, Backend(source, vecs[0], target)), source, target, vecs[1..])
  }

  /** The backend table built from the editor's transitions, in order, on top of `m`. */
  function Compile(m: Table, edges: seq<Edge>): Table
    decreases |edges|
  {
    if |edges| == 0 then m
    else Compile(AddVectors(m, edges[0].source, edges[0].target, edges[0].vectors), edges[1..])
  }

  /** Every symbol of every vector. */
  function VecChars(vecs: seq<seq<char>>): set<char>
    decreases |vecs|
  {
    if |vecs| == 0 then {} else (set c | c in vecs[0]) + VecChars(vecs[1..])
  }

  /** Every symbol the editor's transitions use, the wildcard included. */
  function Alphabet(edges: seq<Edge>): set<char>
    decreases |edges|
  {
    if |edges| == 0 then {} else VecChars(edges[0].vectors) + Alphabet(edges[1..])
  }

  /** The transition is in its source's bucket. */
  predicate Listed(m: Table, t: Transition) {
    t.fromState in m && t in m[t.fromState]
  }

  /** The transition is the backend form of one vector of one editor transition. */
  predicate FromVectors(source: string, target: string, vecs: seq<seq<char>>, t: Transition) {
    exists j :: 0 <= j < |vecs| && t == Backend(source, vecs[j], target)
  }

  predicate FromEdges(edges: seq<Edge>, t: Transition) {
    exists i :: 0 <= i < |edges| && FromVectors(edges[i].source, edges[i].target, edges[i].vectors, t)
  }

  lemma AddedListed(m: Table, u: Transition, t: Transition)
    ensures Listed(Added(m, u), t) <==> Listed(m, t) || t == u
  {
  }

  lemma {:induction false} AddVectorsListed(m: Table, source: string, target: string, vecs: seq<seq<char>>, t: Transition)
    ensures Listed(AddVectors(m, source, target, vecs), t) <==> Listed(m, t) || FromVectors(source, target, vecs, t)
    ensures Filed(m) ==> Filed(AddVectors(m, source, target, vecs))
    decreases |vecs|
  {
    if |vecs| > 0 {
      var u := Backend(source, vecs[0], target);
      AddedListed(m, u, t);
      AddVectorsListed(Added(m, u), source, target, vecs[1..], t);
      if FromVectors(source, target, vecs[1..], t) {
        var j :| 0 <= j < |vecs[1..]| && t == Backend(source, vecs[1..][j], target);
        assert t == Backend(source, vecs[j + 1], target);
      }
      if FromVectors(source, target, vecs, t) && t != u {
        var j :| 0 <= j < |vecs| && t == Backend(source, vecs[j], target);
        assert j > 0;
        assert t == Backend(source, vecs[1..][j - 1], target);
      }
    }
  }

  /**
   * The compiled table lists exactly the transitions it started with and one backend transition per
   * vector of every editor transition, each filed under its source state.
   */
  lemma {:induction false} CompileListed(m: Table, edges: seq<Edge>, t: Transition)
    ensures Listed(Compile(m, edges), t) <==> Listed(m, t) || FromEdges(edges, t)
    ensures Filed(m) ==> Filed(Compile(m, edges))
    decreases |edges|
  {
    if |edges| > 0 {
      var e := edges[0];
      var m' := AddVectors(m, e.source, e.target, e.vectors);
      AddVectorsListed(m, e.source, e.target, e.vectors, t);
      CompileListed(m', edges[1..], t);
      if FromEdges(edges[1..], t) {
        var i :| 0 <= i < |edges[1..]| && FromVectors(edges[1..][i].source, edges[1..][i].target, edges[1..][i].vectors, t);
        assert edges[1..][i] == edges[i + 1];
      }
      if FromEdges(edges, t) && !FromVectors(e.source, e.target, e.vectors, t) {
        var i :| 0 <= i < |edges| && FromVectors(edges[i].source, edges[i].target, edges[i].vectors, t);
        assert i > 0 && edges[i] == edges[1..][i - 1];
      }
    }
  }

  lemma {:induction false} VecCharsMeaning(vecs: seq<seq<char>>, c: char)
    ensures c in VecChars(vecs) <==> exists j :: 0 <= j < |vecs| && c in vecs[j]
    decreases |vecs|
  {
    if |vecs| > 0 {
      VecCharsMeaning(vecs[1..], c);
      if exists j :: 0 <= j < |vecs[1..]| && c in vecs[1..][j] {
        var j :| 0 <= j < |vecs[1..]| && c in vecs[1..][j];
        assert c in vecs[j + 1];
      }
      if c !in vecs[0] && exists j :: 0 <= j < |vecs| && c in vecs[j] {
        var j :| 0 <= j < |vecs| && c in vecs[j];
        assert j > 0 && vecs[j] == vecs[1..][j - 1];
      }
    }
  }

  /** The symbols added to the alphabet are exactly those occurring in some vector of some transition. */
  lemma {:induction false} AlphabetMeaning(edges: seq<Edge>, c: char)
    ensures c in Alphabet(edges) <==> exists i, j :: 0 <= i < |edges| && 0 <= j < |edges[i].vectors| && c in edges[i].vectors[j]
    decreases |edges|
  {
    if |edges| > 0 {
      VecCharsMeaning(edges[0].vectors, c);
      AlphabetMeaning(edges[1..], c);
      if exists i, j :: 0 <= i < |edges[1..]| && 0 <= j < |edges[1..][i].vectors| && c in edges[1..][i].vectors[j] {
        var i, j :| 0 <= i < |edges[1..]| && 0 <= j < |edges[1..][i].vectors| && c in edges[1..][i].vectors[j];
        assert edges[1..][i] == edges[i + 1];
      }
      if exists i, j :: 0 <= i < |edges| && 0 <= j < |edges[i].vectors| && c in edges[i].vectors[j] {
        var i, j :| 0 <= i < |edges| && 0 <= j < |edges[i].vectors| && c in edges[i].vectors[j];
        if i > 0 {
          assert edges[i] == edges[1..][i - 1];
        }
      }
    }
  }

  /** The wildcard written in a vector becomes an alphabet symbol. */
  lemma WildcardEntersAlphabet()
    ensures Blank in Alphabet([Edge("q0", "q1", [[Blank]])])
  {
    AlphabetMeaning([Edge("q0", "q1", [[Blank]])], Blank);
    assert Blank in [Edge("q0", "q1", [[Blank]])][0].vectors[0];
  }

  // ---------------------------------------------------------------------------------------------
  // The editor's states

  /** An editor state as values. */
  datatype Node = Node(name: string, isStart: bool, isAccept: bool)

  function Nodes(gs: seq<G.State>): (r: seq<Node>)
    reads gs
    ensures |r| == |gs| && forall i :: 0 <= i < |gs| ==> r[i] == Node(gs[i].name, gs[i].isStart, gs[i].isAccept)
  {
    seq(|gs|, i requires 0 <= i < |gs| reads gs => Node(gs[i].name, gs[i].isStart, gs[i].isAccept))
  }

  /** The backend ids of all states. */
  function Names(ns: seq<Node>): set<StateId>
    decreases |ns|
  {
    if |ns| == 0 then {} else Names(ns[..|ns| - 1]) + {NameId(ns[|ns| - 1].name)}
  }

  /** The backend ids of the accepting states. */
  function AcceptNames(ns: seq<Node>): set<StateId>
    decreases |ns|
  {
    if |ns| == 0 then {}
    else AcceptNames(ns[..|ns| - 1]) + (if ns[|ns| - 1].isAccept then {NameId(ns[|ns| - 1].name)} else {})
  }

  /** The start state: the last state flagged start, since each one overwrites the previous. */
  function LastStart(ns: seq<Node>): Option<StateId>
    decreases |ns|
  {
    if |ns| == 0 then None
    else if ns[|ns| - 1].isStart then Some(NameId(ns[|ns| - 1].name))
    else LastStart(ns[..|ns| - 1])
  }

  /**
   * The backend states are the editor's names, the accepting ones those flagged accepting, and the
   * start state, when some state is flagged start, the name of the last such state.
   */
  lemma {:induction false} NodesMeaning(ns: seq<Node>, s: StateId)
    ensures s in Names(ns) <==> exists i :: 0 <= i < |ns| && s == NameId(ns[i].name)
    ensures s in AcceptNames(ns) <==> exists i :: 0 <= i < |ns| && ns[i].isAccept && s == NameId(ns[i].name)
    ensures LastStart(ns).None? <==> forall i :: 0 <= i < |ns| ==> !ns[i].isStart
    ensures LastStart(ns).Some? ==>
      exists i :: (0 <= i < |ns| && ns[i].isStart && LastStart(ns).value == NameId(ns[i].name)
                   && forall j :: i < j < |ns| ==> !ns[j].isStart)
    decreases |ns|
  {
    if |ns| > 0 {
      var p := ns[..|ns| - 1];
      NodesMeaning(p, s);
      assert forall i :: 0 <= i < |p| ==> p[i] == ns[i];
      if !ns[|ns| - 1].isStart && LastStart(p).Some? {
        var i :| 0 <= i < |p| && p[i].isStart && LastStart(p).value == NameId(p[i].name)
          && forall j :: i < j < |p| ==> !p[j].isStart;
        assert forall j :: i < j < |ns| ==> !ns[j].isStart;
      }
    }
  }

  /** Every accepting state is a state. */
  lemma AcceptNamesAreNames(ns: seq<Node>)
    ensures AcceptNames(ns) <= Names(ns)
  {
    forall s | s in AcceptNames(ns)
      ensures s in Names(ns)
    {
      NodesMeaning(ns, s);
    }
  }

  // ---------------------------------------------------------------------------------------------
  // Acceptance of the replayed run

  /**
   * The loop of `is_accepted` over the last snapshot's cursors: true once every cursor is at or past
   * the end of its tape's word, false at the first one that is not, and an IndexError at the first
   * cursor that has no tape.
   */
  function AllRead(ps: seq<nat>, words: seq<string>): Outcome<bool>
    decreases |ps|
  {
    if |ps| == 0 then Ok(true)
    else if |words| == 0 then Raised(TapeIndexOutOfRange)
    else if ps[0] < |words[0]| then Ok(false)
    else AllRead(ps[1..], words[1..])
  }

  /** The accept states of the backend automaton and the current words of the manager's tapes. */
  datatype Engine = Engine(accept: set<StateId>, words: seq<string>)

  /** `is_accepted`: false on an empty history, an AttributeError without a manager. */
  function Verdict(history: seq<Snapshot>, engine: Option<Engine>): Outcome<bool> {
    if |history| == 0 then Ok(false)
    else if engine.None? then Raised(NoManager)
    else if Last(history).state !in engine.value.accept then Ok(false)
    else AllRead(Last(history).positions, engine.value.words)
  }

  /**
   * The cursor loop yields true exactly when there is a tape for every cursor and every cursor is at
   * or past its word's end; it raises only when every tape is finished but some cursor has no tape.
   */
  lemma {:induction false} AllReadMeaning(ps: seq<nat>, words: seq<string>)
    ensures AllRead(ps, words) == Ok(true) <==> |ps| <= |words| && forall i :: 0 <= i < |ps| ==> ps[i] >= |words[i]|
    ensures AllRead(ps, words).Raised? ==>
      AllRead(ps, words).fault == TapeIndexOutOfRange && |ps| > |words|
      && forall i :: 0 <= i < |words| ==> ps[i] >= |words[i]|
    decreases |ps|
  {
    if |ps| > 0 && |words| > 0 && ps[0] >= |words[0]| {
      AllReadMeaning(ps[1..], words[1..]);
      assert forall i :: 1 <= i < |ps| ==> ps[i] == ps[1..][i - 1];
      assert forall i :: 1 <= i < |words| ==> words[i] == words[1..][i - 1];
    }
  }

  /** `is_accepted` is true exactly when the last state accepts and every cursor is past its word. */
  lemma VerdictMeaning(history: seq<Snapshot>, engine: Engine)
    ensures Verdict(history, Some(engine)) == Ok(true) <==>
      |history| > 0 && Last(history).state in engine.accept
      && |Last(history).positions| <= |engine.words|
      && forall i :: 0 <= i < |Last(history).positions| ==> Last(history).positions[i] >= |engine.words[i]|
  {
    if |history| > 0 {
      AllReadMeaning(Last(history).positions, engine.words);
    }
  }

  // ---------------------------------------------------------------------------------------------
  // Stepping through the history

  /** What a `step` past the editing checks leaves: the snapshot it returns, the step, `running`, the mode. */
  datatype Cursor = Cursor(snap: Option<Snapshot>, step: nat, running: bool, mode: AppMode)

  /**
   * The replay of one snapshot: the one at the step, which moves on by one and finishes the run at the
   * last snapshot; past the end nothing is returned, the run stops and is finished.
   */
  function Stepped(history: seq<Snapshot>, k: nat): Cursor {
    if k < |history| then Cursor(Some(history[k]), k + 1, true, if k + 1 == |history| then Finished else Running)
    else Cursor(None, k, false, Finished)
  }

  /** The cursors of `n` successive steps from step `k`. */
  function Steps(history: seq<Snapshot>, k: nat, n: nat): (cs: seq<Cursor>)
    ensures |cs| == n
    decreases n
  {
    if n == 0 then [] else var c := Stepped(history, k); [c] + Steps(history, c.step, n - 1)
  }

  /**
   * Stepping from `k` replays the history from `k` on, one snapshot per step and in order; the mode
   * turns Finished exactly at the last snapshot, and the step after that returns nothing and stops.
   */
  lemma {:induction false} StepsReplayHistory(history: seq<Snapshot>, k: nat, n: nat)
    requires k + n <= |history|
    ensures forall i :: 0 <= i < n ==>
      Steps(history, k, n)[i] ==
      Cursor(Some(history[k + i]), k + i + 1, true, if k + i + 1 == |history| then Finished else Running)
    ensures k + n == |history| ==> Steps(history, k, n + 1)[n] == Cursor(None, k + n, false, Finished)
    decreases n
  {
    if n > 0 {
      StepsReplayHistory(history, k + 1, n - 1);
      var cs := Steps(history, k, n);
      assert cs == [Stepped(history, k)] + Steps(history, k + 1, n - 1);
      assert Steps(history, k, n + 1) == [Stepped(history, k)] + Steps(history, k + 1, n);
      forall i | 0 <= i < n
        ensures cs[i] == Cursor(Some(history[k + i]), k + i + 1, true, if k + i + 1 == |history| then Finished else Running)
      {
        if i > 0 {
          assert cs[i] == Steps(history, k + 1, n - 1)[i - 1];
        }
      }
    }
  }

  // ---------------------------------------------------------------------------------------------
  // Re-running the search from the kept prefix

  /** What `simulate_from_updated_history` leaves in the run state and the manager's tapes. */
  datatype Replay = Replay(st: Status, history: seq<Snapshot>, currentStep: nat, updatedDuringRun: bool,
                           tapes: seq<TapeView>)

  /**
   * The search `simulate_from_updated_history` runs: the cursors restored from the backup's last
   * snapshot, then the search re-rooted at the backup.
   */
  function Rerun(trans: Table, accept: set<StateId>, vs: seq<TapeView>, backup: seq<Snapshot>): Run
    requires |backup| > 0
  {
    var start := Restored(vs, Last(backup).positions);
    Search(trans, accept, start, [Root(start, backup)], {Last(backup)})
  }

  /**
   * With a manager and a non-empty backup: the cursors are restored from the backup's last snapshot,
   * the search is re-rooted at the backup (a copy, so the values), and on success the history is what
   * it returns and the step is the backup's length. An exception from the search leaves the run state
   * as it was. An empty backup changes nothing.
   */
  function Resimulate(trans: Table, accept: set<StateId>, vs: seq<TapeView>, backup: seq<Snapshot>,
                      history: seq<Snapshot>, currentStep: nat, updatedDuringRun: bool): Replay
  {
    if |backup| == 0 then Replay(Done, history, currentStep, updatedDuringRun, vs)
    else
      var run := Rerun(trans, accept, vs, backup);
      if run.result.Aborted? then Replay(Failed(run.result.fault), history, currentStep, updatedDuringRun, run.tapes)
      else Replay(Done, run.result.history, |backup|, false, run.tapes)
  }

  /**
   * A successful re-run keeps the backup as the start of the new history, adds at least one snapshot,
   * each along a transition of the automaton, ends with every tape showing the blank at the recorded
   * cursors, and puts the step right after the backup.
   */
  lemma ResimulateExtendsBackup(trans: Table, accept: set<StateId>, vs: seq<TapeView>, backup: seq<Snapshot>,
                                history: seq<Snapshot>, currentStep: nat, updatedDuringRun: bool)
    requires |backup| > 0
    requires Resimulate(trans, accept, vs, backup, history, currentStep, updatedDuringRun).st == Done
    ensures Reached(trans, Restored(vs, Last(backup).positions), backup, Resimulate(trans, accept, vs, backup, history, currentStep, updatedDuringRun).history,
                    Resimulate(trans, accept, vs, backup, history, currentStep, updatedDuringRun).tapes)
    ensures Resimulate(trans, accept, vs, backup, history, currentStep, updatedDuringRun).currentStep == |backup|
    ensures !Resimulate(trans, accept, vs, backup, history, currentStep, updatedDuringRun).updatedDuringRun
  {
    var start := Restored(vs, Last(backup).positions);
    UpdateReports(trans, accept, start, backup);
  }

  /** A failed re-run changes nothing in the run state. */
  lemma ResimulateFailureKeepsRun(trans: Table, accept: set<StateId>, vs: seq<TapeView>, backup: seq<Snapshot>,
                                  history: seq<Snapshot>, currentStep: nat, updatedDuringRun: bool)
    requires Resimulate(trans, accept, vs, backup, history, currentStep, updatedDuringRun).st.Failed?
    ensures Resimulate(trans, accept, vs, backup, history, currentStep, updatedDuringRun).history == history
    ensures Resimulate(trans, accept, vs, backup, history, currentStep, updatedDuringRun).currentStep == currentStep
    ensures Resimulate(trans, accept, vs, backup, history, currentStep, updatedDuringRun).updatedDuringRun == updatedDuringRun
  {
  }

  /**
   * The run `step` goes on with once the backend is up to date: when transitions changed and there is a
   * manager, the re-run on the rebuilt table from the replayed prefix; otherwise the run as it was.
   */
  function Refreshed(pending: bool, trans: Table, accept: set<StateId>, vs: seq<TapeView>, history: seq<Snapshot>,
                     k: nat, updatedDuringRun: bool): Replay
  {
    if pending then Resimulate(trans, accept, vs, Take(history, k), history, k, updatedDuringRun)
    else Replay(Done, history, k, updatedDuringRun, vs)
  }

  /** A re-run followed by appending a tape with view `v`, which only happens when the re-run raised nothing. */
  function Appended(r: Replay, v: TapeView): (r': Replay)
    ensures r'.st == r.st && r'.history == r.history && r'.currentStep == r.currentStep
    ensures r'.tapes == if r.st == Done then r.tapes + [v] else r.tapes
  {
    if r.st == Done then r.(tapes := r.tapes + [v]) else r
  }

  /** Every editor transition is flagged (or, for `false`, none is). */
  predicate AllFlagged(ts: seq<G.Transition>, v: bool)
    reads ts
  {
    forall i :: 0 <= i < |ts| ==> ts[i].requiresUpdate == v
  }

  /** The last snapshot of a prefix with column `col` zeroed. */
  function ZeroLast(h: seq<Snapshot>, col: nat): seq<Snapshot> {
    if |h| > 0 then ZeroAt(h, |h| - 1, col) else h
  }

  /**
   * The history after `change_word` zeroed column `col` in the last snapshot of `history[:k]`: that
   * snapshot is the history's own, so the history changes with it.
   */
  function PatchedHistory(h: seq<Snapshot>, k: nat, col: nat): seq<Snapshot> {
    if |Take(h, k)| > 0 then ZeroAt(h, |Take(h, k)| - 1, col) else h
  }

  /** The patched backup is the prefix of the patched history. */
  lemma ChangeSharesHistory(h: seq<Snapshot>, k: nat, col: nat)
    ensures Take(PatchedHistory(h, k, col), k) == ZeroLast(Take(h, k), col)
    ensures |PatchedHistory(h, k, col)| == |h|
  {
    if |Take(h, k)| > 0 {
      ZeroAtShape(h, |Take(h, k)| - 1, col, k);
      if k > |h| {
        ZeroAtShape(h, |h| - 1, col, |h|);
      }
    }
  }

  /**
   * The loop of `simulate_from_updated_history` that moves tape `i` to cursor `positions[i]` and
   * recomputes its symbol; tapes without a cursor keep theirs.
   */
  method RestoreCursors(ts: seq<Tape>, positions: seq<nat>)
    requires Distinct(ts)
    modifies set t | t in ts
    ensures Views(ts) == Restored(old(Views(ts)), positions)
  {
    var i := 0;
    while i < |ts|
      invariant 0 <= i <= |ts|
      invariant forall j :: 0 <= j < |ts| ==>
        ts[j].View() == if j < i && j < |positions| then Seek(old(ts[j].View()), positions[j]) else old(ts[j].View())
    {
      if i < |positions| {
        var pos := positions[i];
        ts[i].currentPos := pos;
        ts[i].symbol := if pos < |ts[i].symbols| then ts[i].symbols[pos] else Blank;
      }
      i := i + 1;
    }
  }

  /**
   * The cursor restore and the `update` call of `simulate_from_updated_history` on manager `m`, and
   * the run state it leaves: the returned history and the step after the backup, or, when the search
   * raises, the run state given.
   */
  method ReplayOn(m: Manager, backup: seq<Snapshot>, history: seq<Snapshot>, currentStep: nat, updatedDuringRun: bool,
                  ghost trans: Table, ghost accept: set<StateId>, ghost vs: seq<TapeView>) returns (rp: Replay)
    requires m.Valid() && |backup| > 0
    requires m.automata.transitions == trans && m.AcceptingStates() == accept && Views(m.tapes) == vs
    modifies m, set t | t in m.tapes
    ensures m.Valid() && m.automata == old(m.automata) && Views(m.tapes) == rp.tapes
    ensures rp == Resimulate(trans, accept, vs, backup, history, currentStep, updatedDuringRun)
    ensures m.sim == Root(Restored(vs, Last(backup).positions), backup)
    ensures m.visited == Rerun(trans, accept, vs, backup).visited && m.queue == Rerun(trans, accept, vs, backup).queue
  {
    RestoreCursors(m.tapes, Last(backup).positions);
    var r := m.Update(backup);
    if r.Aborted? {
      rp := Replay(Failed(r.fault), history, currentStep, updatedDuringRun, Views(m.tapes));
    } else {
      rp := Replay(Done, r.history, |backup|, false, Views(m.tapes));
    }
  }

  /** The tape list after a removal is the view list after the same removal. */
  lemma RemovedTapeViews(ts: seq<Tape>, n: nat, idx: Option<int>)
    ensures RemovedTape(ts, n, idx).Ok? == RemovedTape(Views(ts), n, idx).Ok?
    ensures RemovedTape(ts, n, idx).Ok? ==> Views(RemovedTape(ts, n, idx).value) == RemovedTape(Views(ts), n, idx).value
    ensures RemovedTape(ts, n, idx).Ok? ==> forall t :: t in RemovedTape(ts, n, idx).value ==> t in ts
    ensures Distinct(ts) && RemovedTape(ts, n, idx).Ok? ==> Distinct(RemovedTape(ts, n, idx).value)
  {
    var vs := Views(ts);
    if RemovedTape(ts, n, idx).Ok? {
      var r := RemovedTape(ts, n, idx).value;
      var rv := RemovedTape(vs, n, idx).value;
      assert |Views(r)| == |rv|;
      forall i | 0 <= i < |rv|
        ensures Views(r)[i] == rv[i]
      {
      }
      assert Views(r) == rv;
    }
  }

  /**
   * The tape half of `remove_word`, with `n` words before the call: the last tape goes for no index or
   * one past the words, the indexed one when the index is below the tape count, and an index below
   * `-len(tapes)` raises with the list as it was.
   */
  method PopTape(m: Manager, n: nat, idx: Option<int>) returns (st: Status)
    requires m.Valid()
    modifies m`tapes
    ensures m.Valid() && forall t :: t in m.tapes ==> t in old(m.tapes)
    ensures RemovedTape(old(Views(m.tapes)), n, idx).Raised? ==>
      st == Failed(PopIndexOutOfRange) && m.tapes == old(m.tapes)
    ensures RemovedTape(old(Views(m.tapes)), n, idx).Ok? ==>
      st == Done && Views(m.tapes) == RemovedTape(old(Views(m.tapes)), n, idx).value
  {
    RemovedTapeViews(m.tapes, n, idx);
    if idx.None? || idx.value >= n {
      if |m.tapes| > 0 {
        m.tapes := m.tapes[..|m.tapes| - 1];
      }
    } else if idx.value < |m.tapes| {
      var k := PopIndex(|m.tapes|, idx.value);
      if k.None? {
        return Failed(PopIndexOutOfRange);
      }
      m.tapes := RemoveAt(m.tapes, k.value);
    }
    st := Done;
  }

  /**
   * The compile loop of `initialize_backend` and `update_transitions_in_backend`: for every vector of
   * every editor transition, in order, its symbols join the alphabet and its backend transition is
   * added to the table.
   */
  method CompileInto(a: Automata, ts: seq<G.Transition>)
    modifies a`transitions, a`alphabet
    ensures a.transitions == Compile(old(a.transitions), Edges(ts))
    ensures a.alphabet == old(a.alphabet) + Alphabet(Edges(ts))
  {
    ghost var edges := Edges(ts);
    var i := 0;
    while i < |ts|
      invariant 0 <= i <= |ts| && edges == Edges(ts)
      invariant Compile(a.transitions, edges[i..]) == Compile(old(a.transitions), edges)
      invariant a.alphabet + Alphabet(edges[i..]) == old(a.alphabet) + Alphabet(edges)
    {
      assert edges[i] == Edge(ts[i].source.name, ts[i].target.name, ts[i].transitionVectors);
      AddEdge(a, ts[i].source.name, ts[i].target.name, ts[i].transitionVectors);
      assert edges[i..][1..] == edges[i + 1..];
      i := i + 1;
    }
  }

  /** The loop over one editor transition's vectors. */
  method AddEdge(a: Automata, source: string, target: string, vecs: seq<seq<char>>)
    modifies a`transitions, a`alphabet
    ensures a.transitions == AddVectors(old(a.transitions), source, target, vecs)
    ensures a.alphabet == old(a.alphabet) + VecChars(vecs)
  {
    var j := 0;
    while j < |vecs|
      invariant 0 <= j <= |vecs|
      invariant AddVectors(a.transitions, source, target, vecs[j..]) == AddVectors(old(a.transitions), source, target, vecs)
      invariant a.alphabet + VecChars(vecs[j..]) == old(a.alphabet) + VecChars(vecs)
    {
      AddSymbols(a, vecs[j]);
      a.AddTransition(Backend(source, vecs[j], target));
      assert vecs[j..][1..] == vecs[j + 1..];
      j := j + 1;
    }
  }

  /** `for c in vec: alphabet.add(c)`. */
  method AddSymbols(a: Automata, vec: seq<char>)
    modifies a`alphabet
    ensures a.alphabet == old(a.alphabet) + set c | c in vec
  {
    var k := 0;
    while k < |vec|
      invariant 0 <= k <= |vec|
      invariant a.alphabet == old(a.alphabet) + set c | c in vec[..k]
    {
      assert vec[..k + 1] == vec[..k] + [vec[k]];
      a.alphabet := a.alphabet + {vec[k]};
      k := k + 1;
    }
    assert vec[..k] == vec;
  }

  /**
   * The state loop of `initialize_backend`: every editor state is added under its name, accepting
   * when flagged so, and each state flagged start becomes the start state in turn.
   */
  /** One more node of the state loop adds its name, its name to the accepting ones when it accepts, and may become the start. */
  lemma NodesStep(ns: seq<Node>, i: nat)
    requires i < |ns|
    ensures Names(ns[..i + 1]) == Names(ns[..i]) + {NameId(ns[i].name)}
    ensures AcceptNames(ns[..i + 1]) == AcceptNames(ns[..i]) + (if ns[i].isAccept then {NameId(ns[i].name)} else {})
    ensures LastStart(ns[..i + 1]) == if ns[i].isStart then Some(NameId(ns[i].name)) else LastStart(ns[..i])
  {
    assert ns[..i + 1][..i] == ns[..i];
  }

  method AddNodes(a: Automata, gs: seq<G.State>)
    modifies a`states, a`acceptStates, a`startState
    ensures a.states == old(a.states) + Names(Nodes(gs))
    ensures a.acceptStates == old(a.acceptStates) + AcceptNames(Nodes(gs))
    ensures a.startState == if LastStart(Nodes(gs)).Some? then LastStart(Nodes(gs)) else old(a.startState)
  {
    ghost var ns := Nodes(gs);
    var i := 0;
    while i < |gs|
      invariant 0 <= i <= |gs| && ns == Nodes(gs)
      invariant a.states == old(a.states) + Names(ns[..i])
      invariant a.acceptStates == old(a.acceptStates) + AcceptNames(ns[..i])
      invariant a.startState == if LastStart(ns[..i]).Some? then LastStart(ns[..i]) else old(a.startState)
    {
      NodesStep(ns, i);
      a.AddState(NameId(gs[i].name), gs[i].isAccept);
      if gs[i].isStart {
        a.SetStartState(NameId(gs[i].name));
      }
      i := i + 1;
    }
    assert ns[..i] == ns;
  }

  /** The backend automaton `initialize_backend` builds from the editor's states and transitions. */
  method BuildAutomata(gs: seq<G.State>, ts: seq<G.Transition>) returns (a: Automata)
    ensures fresh(a)
    ensures a.states == Names(Nodes(gs)) && a.acceptStates == AcceptNames(Nodes(gs))
    ensures a.startState == LastStart(Nodes(gs))
    ensures a.transitions == Compile(map[], Edges(ts)) && a.alphabet == Alphabet(Edges(ts))
  {
    a := new Automata();
    AddNodes(a, gs);
    CompileInto(a, ts);
  }

  /**
   * `RunManager`: the words, the history the search returned, the replay cursor `currentStep`, the
   * backend manager once built, and the mode flags. The editor's automaton is read through
   * `automataManager`.
   */
  class RunManager {
    const automataManager: AutomataManager
    var words: seq<string>
    var history: seq<Snapshot>
    var currentStep: nat
    var manager: Manager?
    var running: bool
    var updatedDuringRun: bool
    var historyBackup: seq<Snapshot>
    var updatedTransitions: bool
    var appMode: AppMode

    /** The editor lists no transition twice and the manager lists no tape twice. */
    ghost predicate Valid()
      reads this`manager, automataManager, manager
    {
      automataManager.Valid() && (manager != null ==> manager.Valid())
    }

    /** The backend objects a re-run may change: the manager and its tapes. */
    ghost function Backend(): set<object>
      reads this`manager, manager
    {
      if manager == null then {} else {manager as object} + Tapes()
    }

    /** The manager's tapes. */
    ghost function Tapes(): set<Tape>
      reads this`manager, manager
    {
      if manager == null then {} else set t | t in manager.tapes
    }

    /** The backend automaton, which a backend update rebuilds. */
    ghost function Automaton(): set<Automata>
      reads this`manager, manager
    {
      if manager == null then {} else {manager.automata}
    }

    /** The editor transitions whose `requiresUpdate` flags a run may set or clear. */
    ghost function Editor(): set<G.Transition>
      reads automataManager
    {
      set t | t in automataManager.transitions
    }

    /** The backend's transition table a re-run searches (empty without a manager). */
    ghost function LiveTable(): Table
      reads this`manager, manager, Automaton()
    {
      if manager == null then map[] else manager.automata.transitions
    }

    /** The backend's accept states (none without a manager). */
    ghost function LiveAccept(): set<StateId>
      reads this`manager, manager, Automaton()
    {
      if manager == null then {} else manager.AcceptingStates()
    }

    /** The values of the manager's tapes (none without a manager). */
    ghost function LiveViews(): seq<TapeView>
      reads this`manager, manager, Tapes()
    {
      if manager == null then [] else Views(manager.tapes)
    }

    /**
     * What the running part of `add_word` leaves, from history `h0` at step `k0` over the backend values
     * `trans`, `accept`, `vs`: the backup is the prefix padded to one cursor per word; without a manager
     * the history is padded in place and marked as updated during the run; with one, the run state and
     * the tapes are the re-run from the backup followed by a fresh tape for the new word; and unless the
     * re-run raised, every editor transition is flagged.
     */
    ghost predicate RanForNewWord(newWord: string, trans: Table, accept: set<StateId>, vs: seq<TapeView>,
                                  h0: seq<Snapshot>, k0: nat, st: Status)
      requires |newWord| > 0
      reads this, manager, Tapes(), automataManager, Editor()
    {
      historyBackup == PadAll(Take(h0, k0), |words|)
      && (manager == null ==>
            st == Done && history == PadPrefix(h0, k0, |words|) && currentStep == k0 && updatedDuringRun)
      && (manager != null ==>
            Replay(st, history, currentStep, updatedDuringRun, Views(manager.tapes)) ==
            Appended(Resimulate(trans, accept, vs, historyBackup, PadPrefix(h0, k0, |words|), k0, true),
                     TapeView(newWord, 0, newWord[0])))
      && (st == Done ==> AllFlagged(automataManager.transitions, true))
    }

    /**
     * What the re-run of `change_word` leaves, from history `h0` at step `k0` with during-run flag `u0`:
     * the backup is the prefix with word `idx`'s cursor zeroed in its last snapshot; without a manager
     * the history carries the same patch; with one, the run state and the tapes are the re-run from the
     * backup over the tapes with tape `idx` given the new word.
     */
    ghost predicate ReplayedChangedWord(idx: nat, newWord: string, trans: Table, accept: set<StateId>, vs: seq<TapeView>,
                                        h0: seq<Snapshot>, k0: nat, u0: bool, st: Status)
      reads this, manager, Tapes()
    {
      historyBackup == ZeroLast(Take(h0, k0), idx)
      && (manager == null ==>
            st == Done && history == PatchedHistory(h0, k0, idx) && currentStep == k0 && updatedDuringRun == u0)
      && (manager != null ==>
            Replay(st, history, currentStep, updatedDuringRun, Views(manager.tapes)) ==
            Resimulate(trans, accept, Reworded(vs, idx, newWord), historyBackup, PatchedHistory(h0, k0, idx), k0, u0))
    }

    /**
     * The run state after the backend update of `step` (`rp`, from history `h0` at step `k0`): history,
     * during-run flag and tapes as `rp` says; and when an update was pending, the backend table rebuilt
     * from the editor transitions `edges` and the backup the replayed prefix.
     */
    ghost predicate RefreshedTo(rp: Replay, pending: bool, edges: seq<Edge>, h0: seq<Snapshot>, k0: nat)
      reads this`history, this`updatedDuringRun, this`historyBackup, this`manager, manager, Tapes(), Automaton()
    {
      history == rp.history && updatedDuringRun == rp.updatedDuringRun
      && (manager != null ==> Views(manager.tapes) == rp.tapes)
      && (pending && manager != null ==>
            manager.automata.transitions == Compile(map[], edges) && historyBackup == Take(h0, k0))
    }

    /** The words, the manager's tapes and the accept states the acceptance test reads. */
    function EngineOf(): Option<Engine>
      reads this`manager, manager, if manager == null then {} else {manager.automata}
      reads if manager == null then {} else set t | t in manager.tapes
    {
      if manager == null then None else Some(Engine(manager.AcceptingStates(), Words(Views(manager.tapes))))
    }

    constructor (automataManager: AutomataManager)
      requires automataManager.Valid()
      ensures this.automataManager == automataManager && Valid()
      ensures words == [] && history == [] && currentStep == 0 && manager == null
      ensures !running && !updatedDuringRun && historyBackup == [] && !updatedTransitions && appMode == Drawing
    {
      this.automataManager := automataManager;
      words, history, currentStep, manager := [], [], 0, null;
      running, updatedDuringRun, historyBackup, updatedTransitions, appMode := false, false, [], false, Drawing;
    }

    /** `can_continue_run`: true iff no editor transition is flagged for an update. */
    method CanContinueRun() returns (r: bool)
      ensures r <==> AllFlagged(automataManager.transitions, false)
    {
      var ts := automataManager.transitions;
      var i := 0;
      while i < |ts|
        invariant 0 <= i <= |ts|
        invariant forall j :: 0 <= j < i ==> !ts[j].requiresUpdate
      {
        if ts[i].requiresUpdate {
          return false;
        }
        i := i + 1;
      }
      return true;
    }

    /** The loop setting (or clearing) `requires_update` on every editor transition. */
    method SetFlags(v: bool)
      requires automataManager.Valid()
      modifies Editor()`requiresUpdate
      ensures AllFlagged(automataManager.transitions, v)
    {
      var ts := automataManager.transitions;
      var i := 0;
      while i < |ts|
        invariant 0 <= i <= |ts|
        invariant forall j :: 0 <= j < i ==> ts[j].requiresUpdate == v
      {
        ts[i].requiresUpdate := v;
        i := i + 1;
      }
    }

    /**
     * `__update_run_history(new_word)`: the backup is the replayed prefix `history[:current_step]`.
     * For a new word each of its snapshots is padded with zero cursors to one per word, in place, so
     * the same snapshots of the history are padded too; otherwise the padding loop stops at once.
     */
    method UpdateRunHistory(newWord: bool)
      modifies this`historyBackup, this`history, this`updatedDuringRun
      ensures historyBackup == if newWord then PadAll(Take(old(history), old(currentStep)), |words|)
                               else Take(old(history), old(currentStep))
      ensures history == if newWord then PadPrefix(old(history), old(currentStep), |words|) else old(history)
      ensures updatedDuringRun
    {
      ghost var k := |Take(history, currentStep)|;
      historyBackup := Take(history, currentStep);
      var i := 0;
      while i < |historyBackup|
        invariant 0 <= i <= |historyBackup| == k
        invariant |history| == |old(history)|
        invariant forall j :: 0 <= j < |history| ==>
          history[j] == if j < i && newWord then Pad(old(history)[j], |words|) else old(history)[j]
        invariant forall j :: 0 <= j < k ==> historyBackup[j] == history[j]
      {
        var snap := historyBackup[i];
        while |snap.positions| < |words|
          invariant snap.state == historyBackup[i].state
          invariant |historyBackup[i].positions| <= |snap.positions|
          invariant newWord ==> snap.positions == historyBackup[i].positions + Zeros(|snap.positions| - |historyBackup[i].positions|)
          invariant !newWord || |historyBackup[i].positions| >= |words| ==> snap == historyBackup[i]
          invariant |historyBackup[i].positions| < |words| && newWord ==> |snap.positions| <= |words|
          decreases |words| - |snap.positions|
        {
          if newWord {
            snap := Snapshot(snap.state, snap.positions + [0]);
          } else {
            break;
          }
        }
        assert snap == if newWord then Pad(old(history)[i], |words|) else old(history)[i];
        historyBackup := historyBackup[i := snap];
        history := history[i := snap];
        i := i + 1;
      }
      updatedDuringRun := true;
    }

    /**
     * `simulate_from_updated_history`: nothing without a manager or a backup; otherwise the manager's
     * cursors are restored from the backup's last snapshot and the search is re-run from the backup.
     */
    method SimulateFromUpdatedHistory(ghost trans: Table, ghost accept: set<StateId>, ghost vs: seq<TapeView>)
      returns (st: Status)
      requires Valid()
      requires manager != null ==>
        manager.automata.transitions == trans && manager.AcceptingStates() == accept && Views(manager.tapes) == vs
      modifies this`history, this`currentStep, this`updatedDuringRun, manager, Tapes()
      ensures Valid()
      ensures manager == null ==>
        st == Done && history == old(history) && currentStep == old(currentStep) && updatedDuringRun == old(updatedDuringRun)
      ensures manager != null ==> (manager.automata == old(manager.automata) &&
        Replay(st, history, currentStep, updatedDuringRun, Views(manager.tapes)) ==
        Resimulate(trans, accept, vs, old(historyBackup), old(history), old(currentStep), old(updatedDuringRun)))
      ensures manager != null && |old(historyBackup)| > 0 ==>
        manager.sim == Root(Restored(vs, Last(old(historyBackup)).positions), old(historyBackup))
        && manager.visited == Rerun(trans, accept, vs, old(historyBackup)).visited
        && manager.queue == Rerun(trans, accept, vs, old(historyBackup)).queue
    {
      if manager == null || |historyBackup| == 0 {
        return Done;
      }
      var rp := ReplayOn(manager, historyBackup, history, currentStep, updatedDuringRun, trans, accept, vs);
      ghost var views := Views(manager.tapes);
      st, history, currentStep, updatedDuringRun := rp.st, rp.history, rp.currentStep, rp.updatedDuringRun;
      assert Views(manager.tapes) == views;
    }

    /**
     * `add_word`: refused once the run is finished and ignored for the empty word; otherwise the word
     * is appended, and while running the run is brought up to date (`RerunForNewWord`).
     */
    method AddWord(newWord: string) returns (st: Status)
      requires Valid()
      modifies this, manager, Tapes(), Editor()`requiresUpdate
      ensures Valid() && manager == old(manager) && (manager != null ==> manager.automata == old(manager.automata))
      ensures running == old(running) && updatedTransitions == old(updatedTransitions) && appMode == old(appMode)
      ensures old(appMode) == Finished ==>
        st == Failed(AddAfterFinish) && unchanged(this) && unchanged(old(Backend())) && unchanged(old(Editor()))
      ensures old(appMode) != Finished && |newWord| == 0 ==>
        st == Done && unchanged(this) && unchanged(old(Backend())) && unchanged(old(Editor()))
      ensures old(appMode) != Finished && |newWord| > 0 ==> words == old(words) + [newWord]
      ensures old(appMode) != Finished && |newWord| > 0 && !old(running) ==>
        st == Done && history == old(history) && currentStep == old(currentStep)
        && updatedDuringRun == old(updatedDuringRun) && historyBackup == old(historyBackup)
        && unchanged(old(Backend())) && unchanged(old(Editor()))
      ensures old(appMode) != Finished && |newWord| > 0 && old(running) ==>
        RanForNewWord(newWord, old(LiveTable()), old(LiveAccept()), old(LiveViews()), old(history), old(currentStep), st)
        && (st != Done ==> unchanged(old(Editor())))
    {
      if appMode == Finished {
        return Failed(AddAfterFinish);
      }
      if |newWord| == 0 {
        return Done;
      }
      st := AppendWord(newWord, LiveTable(), LiveAccept(), LiveViews());
    }

    /** `add_word` past its two checks: the word is appended and, while running, the run brought up to date. */
    method AppendWord(newWord: string, ghost trans: Table, ghost accept: set<StateId>, ghost vs: seq<TapeView>)
      returns (st: Status)
      requires Valid() && |newWord| > 0
      requires manager != null ==>
        manager.automata.transitions == trans && manager.AcceptingStates() == accept && Views(manager.tapes) == vs
      modifies this`words, this`historyBackup, this`history, this`currentStep, this`updatedDuringRun, manager, Tapes(),
               Editor()`requiresUpdate
      ensures Valid() && (manager != null ==> manager.automata == old(manager.automata))
      ensures words == old(words) + [newWord]
      ensures !running ==>
        st == Done && history == old(history) && currentStep == old(currentStep)
        && updatedDuringRun == old(updatedDuringRun) && historyBackup == old(historyBackup)
        && unchanged(old(Backend())) && unchanged(old(Editor()))
      ensures running ==>
        RanForNewWord(newWord, trans, accept, vs, old(history), old(currentStep), st)
        && (st != Done ==> unchanged(old(Editor())))
    {
      words := words + [newWord];
      st := Done;
      if running {
        st := RerunForNewWord(newWord, trans, accept, vs);
      }
    }

    /**
     * The running part of `add_word`, after the word was appended: the kept snapshots are padded to one
     * cursor per word, the search is re-run on the tapes as they were, and only then a tape for the new
     * word is appended and every editor transition flagged. An exception from the re-run skips those two.
     */
    method RerunForNewWord(newWord: string, ghost trans: Table, ghost accept: set<StateId>, ghost vs: seq<TapeView>)
      returns (st: Status)
      requires Valid() && |newWord| > 0
      requires manager != null ==>
        manager.automata.transitions == trans && manager.AcceptingStates() == accept && Views(manager.tapes) == vs
      modifies this`historyBackup, this`history, this`currentStep, this`updatedDuringRun, manager, Tapes(), Editor()`requiresUpdate
      ensures Valid() && (manager != null ==> manager.automata == old(manager.automata))
      ensures RanForNewWord(newWord, trans, accept, vs, old(history), old(currentStep), st)
      ensures st != Done ==> unchanged(old(Editor()))
    {
      st := ReplayKept(true, trans, accept, vs);
      if st == Done {
        AppendTapeAndFlag(newWord);
      }
    }

    /** `__update_run_history(newWord)` followed by `simulate_from_updated_history`. */
    method ReplayKept(newWord: bool, ghost trans: Table, ghost accept: set<StateId>, ghost vs: seq<TapeView>)
      returns (st: Status)
      requires Valid()
      requires manager != null ==>
        manager.automata.transitions == trans && manager.AcceptingStates() == accept && Views(manager.tapes) == vs
      modifies this`historyBackup, this`history, this`currentStep, this`updatedDuringRun, manager, Tapes()
      ensures Valid() && (manager != null ==> manager.automata == old(manager.automata))
      ensures historyBackup == if newWord then PadAll(Take(old(history), old(currentStep)), |words|)
                               else Take(old(history), old(currentStep))
      ensures manager == null ==>
        st == Done && history == (if newWord then PadPrefix(old(history), old(currentStep), |words|) else old(history))
        && currentStep == old(currentStep) && updatedDuringRun
      ensures manager != null ==>
        Replay(st, history, currentStep, updatedDuringRun, Views(manager.tapes)) ==
        Resimulate(trans, accept, vs, historyBackup,
                   if newWord then PadPrefix(old(history), old(currentStep), |words|) else old(history),
                   old(currentStep), true)
    {
      UpdateRunHistory(newWord);
      st := SimulateFromUpdatedHistory(trans, accept, vs);
    }

    /** `manager.tapes.append(Tape(word))`, when there is a manager, then every editor transition flagged. */
    method AppendTapeAndFlag(word: string)
      requires Valid() && |word| > 0
      modifies manager, Editor()`requiresUpdate
      ensures Valid() && manager == old(manager)
      ensures manager != null ==>
        manager.automata == old(manager.automata) && Views(manager.tapes) == old(Views(manager.tapes)) + [TapeView(word, 0, word[0])]
      ensures AllFlagged(automataManager.transitions, true)
    {
      if manager != null {
        var t := new Tape(word);
        manager.tapes := manager.tapes + [t];
      }
      SetFlags(true);
    }

    /**
     * `change_word(idx, new_word)`: an index out of range changes nothing; otherwise the word is
     * replaced, and while running the run is brought up to date (`RerunForChangedWord`).
     */
    method ChangeWord(idx: int, newWord: string) returns (st: Status)
      requires Valid()
      modifies this, manager, Tapes(), Editor()`requiresUpdate
      ensures Valid() && manager == old(manager) && (manager != null ==> manager.automata == old(manager.automata))
      ensures running == old(running) && updatedTransitions == old(updatedTransitions) && appMode == old(appMode)
      ensures !(0 <= idx < |old(words)|) ==>
        st == Done && unchanged(this) && unchanged(old(Backend())) && unchanged(old(Editor()))
      ensures 0 <= idx < |old(words)| ==> words == old(words)[idx := newWord]
      ensures 0 <= idx < |old(words)| && !old(running) ==>
        st == Done && history == old(history) && currentStep == old(currentStep)
        && updatedDuringRun == old(updatedDuringRun) && historyBackup == old(historyBackup)
        && unchanged(old(Backend())) && unchanged(old(Editor()))
      ensures 0 <= idx < |old(words)| && old(running) ==>
        ReplayedChangedWord(idx, newWord, old(LiveTable()), old(LiveAccept()), old(LiveViews()),
                            old(history), old(currentStep), old(updatedDuringRun), st)
        && (st == Done ==> AllFlagged(automataManager.transitions, true))
        && (st != Done ==> unchanged(old(Editor())))
    {
      if !(0 <= idx < |words|) {
        return Done;
      }
      st := ReplaceWord(idx, newWord, LiveTable(), LiveAccept(), LiveViews());
    }

    /** `change_word` for an index in range: the word is replaced and, while running, the run brought up to date. */
    method ReplaceWord(idx: nat, newWord: string, ghost trans: Table, ghost accept: set<StateId>, ghost vs: seq<TapeView>)
      returns (st: Status)
      requires Valid() && idx < |words|
      requires manager != null ==>
        manager.automata.transitions == trans && manager.AcceptingStates() == accept && Views(manager.tapes) == vs
      modifies this`words, this`historyBackup, this`history, this`currentStep, this`updatedDuringRun, manager, Tapes(),
               Editor()`requiresUpdate
      ensures Valid() && (manager != null ==> manager.automata == old(manager.automata))
      ensures words == old(words)[idx := newWord]
      ensures !running ==>
        st == Done && history == old(history) && currentStep == old(currentStep)
        && updatedDuringRun == old(updatedDuringRun) && historyBackup == old(historyBackup)
        && unchanged(old(Backend())) && unchanged(old(Editor()))
      ensures running ==>
        ReplayedChangedWord(idx, newWord, trans, accept, vs, old(history), old(currentStep), old(updatedDuringRun), st)
        && (st == Done ==> AllFlagged(automataManager.transitions, true))
        && (st != Done ==> unchanged(old(Editor())))
    {
      words := words[idx := newWord];
      st := Done;
      if running {
        st := RerunForChangedWord(idx, newWord, trans, accept, vs);
      }
    }

    /**
     * The running part of `change_word`: the cursor of word `idx` in the last kept snapshot is reset
     * to 0 (in the history too, which holds the same snapshot), the manager's tape gets the new word
     * with its cursor and cached symbol as they were, the search is re-run, and every editor transition
     * is flagged unless the re-run raised.
     */
    method RerunForChangedWord(idx: nat, newWord: string, ghost trans: Table, ghost accept: set<StateId>,
                               ghost vs: seq<TapeView>) returns (st: Status)
      requires Valid()
      requires manager != null ==>
        manager.automata.transitions == trans && manager.AcceptingStates() == accept && Views(manager.tapes) == vs
      modifies this`historyBackup, this`history, this`currentStep, this`updatedDuringRun, manager, Tapes(), Editor()`requiresUpdate
      ensures Valid() && (manager != null ==> manager.automata == old(manager.automata))
      ensures ReplayedChangedWord(idx, newWord, trans, accept, vs, old(history), old(currentStep), old(updatedDuringRun), st)
      ensures st == Done ==> AllFlagged(automataManager.transitions, true)
      ensures st != Done ==> unchanged(old(Editor()))
    {
      st := ReplayChanged(idx, newWord, trans, accept, vs);
      if st.Failed? {
        return;
      }
      FlagAfterChange(idx, newWord, trans, accept, vs, old(history), old(currentStep), old(updatedDuringRun));
    }

    /** The loop over the editor transitions after a successful re-run of `change_word`: it touches only the flags. */
    method FlagAfterChange(idx: nat, newWord: string, ghost trans: Table, ghost accept: set<StateId>, ghost vs: seq<TapeView>,
                           ghost h0: seq<Snapshot>, ghost k0: nat, ghost u0: bool)
      requires Valid() && ReplayedChangedWord(idx, newWord, trans, accept, vs, h0, k0, u0, Done)
      modifies Editor()`requiresUpdate
      ensures Valid() && ReplayedChangedWord(idx, newWord, trans, accept, vs, h0, k0, u0, Done)
      ensures AllFlagged(automataManager.transitions, true)
      ensures manager != null ==> manager.automata == old(manager.automata)
    {
      SetFlags(true);
      assert manager != null ==> Views(manager.tapes) == old(Views(manager.tapes));
    }

    /** The patched backup, the new word on its tape, then `simulate_from_updated_history`. */
    method ReplayChanged(idx: nat, newWord: string, ghost trans: Table, ghost accept: set<StateId>,
                         ghost vs: seq<TapeView>) returns (st: Status)
      requires Valid()
      requires manager != null ==>
        manager.automata.transitions == trans && manager.AcceptingStates() == accept && Views(manager.tapes) == vs
      modifies this`historyBackup, this`history, this`currentStep, this`updatedDuringRun, manager, Tapes()
      ensures Valid() && (manager != null ==> manager.automata == old(manager.automata))
      ensures ReplayedChangedWord(idx, newWord, trans, accept, vs, old(history), old(currentStep), old(updatedDuringRun), st)
    {
      PatchBackup(idx);
      RewordTape(idx, newWord);
      st := SimulateFromUpdatedHistory(trans, accept, Reworded(vs, idx, newWord));
    }

    /**
     * The backup `history[:current_step]` of `change_word`, with the cursor of word `idx` in its last
     * snapshot reset to 0; that snapshot is the history's own, so the history changes with it.
     */
    method PatchBackup(idx: nat)
      modifies this`historyBackup, this`history
      ensures historyBackup == ZeroLast(Take(old(history), old(currentStep)), idx)
      ensures history == PatchedHistory(old(history), old(currentStep), idx)
    {
      ChangeSharesHistory(history, currentStep, idx);
      var partial := Take(history, currentStep);
      if |partial| > 0 {
        var last := partial[|partial| - 1];
        if idx < |last.positions| {
          var patched := Snapshot(last.state, last.positions[idx := 0]);
          history := history[|partial| - 1 := patched];
          partial := partial[|partial| - 1 := patched];
        }
      }
      historyBackup := partial;
    }

    /** `manager.tapes[idx].symbols = new_word`, when there is a manager with such a tape. */
    method RewordTape(idx: nat, newWord: string)
      requires Valid()
      modifies Tapes()
      ensures Valid() && manager == old(manager)
      ensures manager != null ==>
        manager.automata == old(manager.automata) && manager.tapes == old(manager.tapes)
        && Views(manager.tapes) == Reworded(old(Views(manager.tapes)), idx, newWord)
    {
      if manager != null && idx < |manager.tapes| {
        manager.tapes[idx].symbols := newWord;
      }
    }

    /**
     * `remove_word(idx)`: nothing without words; otherwise the word goes (the last one without an index
     * or past the words, `words.pop(idx)` otherwise), then the matching tape, and while running the run
     * is brought up to date (`DropTapeAndReplay`). An IndexError from `words.pop` changes nothing.
     */
    method RemoveWord(idx: Option<int>) returns (st: Status)
      requires Valid()
      modifies this, manager, Tapes()
      ensures Valid() && manager == old(manager) && (manager != null ==> manager.automata == old(manager.automata))
      ensures running == old(running) && updatedTransitions == old(updatedTransitions) && appMode == old(appMode)
      ensures |old(words)| == 0 ==> st == Done && unchanged(this) && unchanged(old(Backend()))
      ensures |old(words)| > 0 && RemovedWord(old(words), idx).Raised? ==>
        st == Failed(PopIndexOutOfRange) && unchanged(this) && unchanged(old(Backend()))
      ensures |old(words)| > 0 && RemovedWord(old(words), idx).Ok? ==>
        words == RemovedWord(old(words), idx).value
        && (manager == null ==>
              st == Done && history == old(history) && currentStep == old(currentStep)
              && historyBackup == (if old(running) then Take(old(history), old(currentStep)) else old(historyBackup))
              && updatedDuringRun == (old(running) || old(updatedDuringRun)))
        && (manager != null ==>
              var tapes := RemovedTape(old(Views(manager.tapes)), |old(words)|, idx);
              (tapes.Raised? || !old(running) ==>
                 st == (if tapes.Raised? then Failed(PopIndexOutOfRange) else Done)
                 && Views(manager.tapes) == (if tapes.Raised? then old(Views(manager.tapes)) else tapes.value)
                 && history == old(history) && currentStep == old(currentStep)
                 && historyBackup == old(historyBackup) && updatedDuringRun == old(updatedDuringRun))
              && (tapes.Ok? && old(running) ==>
                    historyBackup == Take(old(history), old(currentStep))
                    && Replay(st, history, currentStep, updatedDuringRun, Views(manager.tapes)) ==
                       Resimulate(old(manager.automata.transitions), old(manager.AcceptingStates()), tapes.value,
                                  historyBackup, old(history), old(currentStep), true)))
    {
      if |words| == 0 {
        return Done;
      }
      var removed := RemovedWord(words, idx);
      if removed.Raised? {
        return Failed(removed.fault);
      }
      ghost var trans, accept, vs := LiveTable(), LiveAccept(), LiveViews();
      var n := |words|;
      words := removed.value;
      assert manager != null ==>
        trans == old(manager.automata.transitions) && accept == old(manager.AcceptingStates())
        && vs == old(Views(manager.tapes));
      st := DropTapeAndReplay(n, idx, trans, accept, vs);
    }

    /**
     * The tape half of `remove_word` with `n` words before the call, then, while running, the backup of
     * the replayed prefix, left as it is (no column is removed), and the re-run from it.
     */
    method DropTapeAndReplay(n: nat, idx: Option<int>, ghost trans: Table, ghost accept: set<StateId>,
                             ghost vs: seq<TapeView>) returns (st: Status)
      requires Valid()
      requires manager != null ==>
        manager.automata.transitions == trans && manager.AcceptingStates() == accept && Views(manager.tapes) == vs
      modifies this`historyBackup, this`history, this`currentStep, this`updatedDuringRun, manager, Tapes()
      ensures Valid() && (manager != null ==> manager.automata == old(manager.automata))
      ensures manager == null ==>
        st == Done && history == old(history) && currentStep == old(currentStep)
        && historyBackup == (if running then Take(old(history), old(currentStep)) else old(historyBackup))
        && updatedDuringRun == (running || old(updatedDuringRun))
      ensures manager != null && (RemovedTape(vs, n, idx).Raised? || !running) ==>
        st == (if RemovedTape(vs, n, idx).Raised? then Failed(PopIndexOutOfRange) else Done)
        && Views(manager.tapes) == (if RemovedTape(vs, n, idx).Raised? then vs else RemovedTape(vs, n, idx).value)
        && history == old(history) && currentStep == old(currentStep)
        && historyBackup == old(historyBackup) && updatedDuringRun == old(updatedDuringRun)
      ensures manager != null && RemovedTape(vs, n, idx).Ok? && running ==>
        historyBackup == Take(old(history), old(currentStep))
        && Replay(st, history, currentStep, updatedDuringRun, Views(manager.tapes)) ==
           Resimulate(trans, accept, RemovedTape(vs, n, idx).value, historyBackup, old(history), old(currentStep), true)
    {
      st := Done;
      if manager != null {
        st := PopTape(manager, n, idx);
        if st.Failed? {
          return;
        }
      }
      if running {
        ghost var kept := if manager == null then [] else RemovedTape(vs, n, idx).value;
        st := ReplayKept(false, trans, accept, kept);
      }
    }

    /**
     * `update_transitions_in_backend`: without a manager nothing happens; otherwise the backend table is
     * rebuilt from the editor's transitions (the alphabet keeps its symbols and gains theirs), the
     * backup is the replayed prefix `history[:current_step]`, and the run is brought up to date from it.
     */
    method UpdateTransitionsInBackend() returns (st: Status)
      requires Valid()
      modifies this`historyBackup, this`history, this`currentStep, this`updatedDuringRun, manager, Tapes(),
               Automaton()`transitions, Automaton()`alphabet
      ensures Valid()
      ensures manager == null ==> st == Done && unchanged(this)
      ensures manager != null ==>
        manager.automata == old(manager.automata)
        && manager.automata.transitions == Compile(map[], old(Edges(automataManager.transitions)))
        && manager.automata.alphabet == old(manager.automata.alphabet) + old(Alphabet(Edges(automataManager.transitions)))
        && manager.automata.states == old(manager.automata.states)
        && manager.automata.startState == old(manager.automata.startState)
        && manager.automata.acceptStates == old(manager.automata.acceptStates)
        && historyBackup == Take(old(history), old(currentStep))
        && Replay(st, history, currentStep, updatedDuringRun, Views(manager.tapes)) ==
           Resimulate(Compile(map[], old(Edges(automataManager.transitions))), old(manager.AcceptingStates()),
                      old(Views(manager.tapes)), historyBackup, old(history), old(currentStep), old(updatedDuringRun))
      ensures manager != null && |historyBackup| > 0 ==>
        manager.sim == Root(Restored(old(Views(manager.tapes)), Last(historyBackup).positions), historyBackup)
        && manager.visited == Rerun(Compile(map[], old(Edges(automataManager.transitions))), old(manager.AcceptingStates()),
                                    old(Views(manager.tapes)), historyBackup).visited
        && manager.queue == Rerun(Compile(map[], old(Edges(automataManager.transitions))), old(manager.AcceptingStates()),
                                  old(Views(manager.tapes)), historyBackup).queue
    {
      if manager == null {
        return Done;
      }
      st := RebuildAndReplay(Edges(automataManager.transitions), manager.automata.alphabet, manager.AcceptingStates(),
                             Views(manager.tapes));
    }

    /** `update_transitions_in_backend` once there is a manager: the rebuilt table, then the re-run. */
    method RebuildAndReplay(ghost edges: seq<Edge>, ghost alphabet: set<char>, ghost accept: set<StateId>,
                            ghost vs: seq<TapeView>) returns (st: Status)
      requires Valid() && manager != null && Edges(automataManager.transitions) == edges
      requires manager.automata.alphabet == alphabet && manager.AcceptingStates() == accept && Views(manager.tapes) == vs
      modifies this`historyBackup, this`history, this`currentStep, this`updatedDuringRun, manager, Tapes(),
               manager.automata`transitions, manager.automata`alphabet
      ensures Valid() && manager == old(manager) && manager.automata == old(manager.automata)
      ensures manager.automata.transitions == Compile(map[], edges)
      ensures manager.automata.alphabet == alphabet + Alphabet(edges)
      ensures historyBackup == Take(old(history), old(currentStep))
      ensures Replay(st, history, currentStep, updatedDuringRun, Views(manager.tapes)) ==
              Resimulate(Compile(map[], edges), accept, vs, historyBackup, old(history), old(currentStep), old(updatedDuringRun))
      ensures |historyBackup| > 0 ==>
        manager.sim == Root(Restored(vs, Last(historyBackup).positions), historyBackup)
        && manager.visited == Rerun(Compile(map[], edges), accept, vs, historyBackup).visited
        && manager.queue == Rerun(Compile(map[], edges), accept, vs, historyBackup).queue
    {
      RebuildTable();
      assert Edges(automataManager.transitions) == edges;
      assert manager.automata.transitions == Compile(map[], edges) && manager.AcceptingStates() == accept;
      assert Views(manager.tapes) == vs;
      st := SimulateFromUpdatedHistory(Compile(map[], edges), accept, vs);
    }

    /** The cleared backend table filled again from the editor, and the backup of the replayed prefix. */
    method RebuildTable()
      requires Valid() && manager != null
      modifies this`historyBackup, manager.automata`transitions, manager.automata`alphabet
      ensures historyBackup == Take(old(history), old(currentStep))
      ensures manager.automata.transitions == Compile(map[], Edges(automataManager.transitions))
      ensures manager.automata.alphabet == old(manager.automata.alphabet) + Alphabet(Edges(automataManager.transitions))
    {
      manager.automata.transitions := map[];
      historyBackup := Take(history, currentStep);
      CompileInto(manager.automata, automataManager.transitions);
    }

    /**
     * `step`: while running with a transition flagged for an update nothing happens; otherwise the run
     * is on, pending editor changes reach the backend first (`RefreshBackend`) and the history advances
     * by one snapshot (`Advance`). An exception from the backend update leaves the change pending.
     */
    method Step() returns (r: Outcome<Option<Snapshot>>)
      requires Valid()
      modifies this`running, this`appMode, this`updatedTransitions, this`historyBackup, this`history,
               this`currentStep, this`updatedDuringRun, manager, Tapes(), Automaton()`transitions, Automaton()`alphabet
      ensures Valid() && manager == old(manager)
      ensures manager != null ==>
        manager.automata.states == old(manager.automata.states) && manager.automata.acceptStates == old(manager.automata.acceptStates)
        && manager.automata.startState == old(manager.automata.startState)
      ensures !(old(updatedTransitions) && manager != null) ==>
        historyBackup == old(historyBackup)
        && (manager != null ==> manager.automata.transitions == old(manager.automata.transitions)
                                && manager.automata.alphabet == old(manager.automata.alphabet))
      ensures old(updatedTransitions) && manager != null && !(old(running) && !old(AllFlagged(automataManager.transitions, false))) ==>
        manager.automata.alphabet == old(manager.automata.alphabet) + old(Alphabet(Edges(automataManager.transitions)))
      ensures old(running) && !old(AllFlagged(automataManager.transitions, false)) ==>
        r == Ok(None) && unchanged(this) && unchanged(old(Backend())) && unchanged(old(Automaton()))
      ensures !(old(running) && !old(AllFlagged(automataManager.transitions, false))) ==>
        var rp := Refreshed(old(updatedTransitions) && manager != null, Compile(map[], old(Edges(automataManager.transitions))),
                            old(LiveAccept()), old(LiveViews()), old(history), old(currentStep), old(updatedDuringRun));
        && RefreshedTo(rp, old(updatedTransitions), old(Edges(automataManager.transitions)), old(history), old(currentStep))
        && (manager != null ==> manager.automata == old(manager.automata))
        && (rp.st.Failed? ==>
              r == Raised(rp.st.fault) && running && appMode == Running && updatedTransitions && currentStep == rp.currentStep)
        && (rp.st == Done ==>
              !updatedTransitions && r.Ok? && Cursor(r.value, currentStep, running, appMode) == Stepped(rp.history, rp.currentStep))
    {
      if running && !AllFlagged(automataManager.transitions, false) {
        return Ok(None);
      }
      ghost var edges := Edges(automataManager.transitions);
      ghost var accept, vs := LiveAccept(), LiveViews();
      running := true;
      appMode := Running;
      r := RefreshAndAdvance(edges, accept, vs);
    }

    /** `step` once the run is on: the pending backend update, then the replay of one snapshot. */
    method RefreshAndAdvance(ghost edges: seq<Edge>, ghost accept: set<StateId>, ghost vs: seq<TapeView>)
      returns (r: Outcome<Option<Snapshot>>)
      requires Valid() && running && appMode == Running && Edges(automataManager.transitions) == edges
      requires accept == LiveAccept() && vs == LiveViews()
      modifies this`running, this`appMode, this`updatedTransitions, this`historyBackup, this`history,
               this`currentStep, this`updatedDuringRun, manager, Tapes(), Automaton()`transitions, Automaton()`alphabet
      ensures Valid() && manager == old(manager)
      ensures manager != null ==>
        manager.automata.states == old(manager.automata.states) && manager.automata.acceptStates == old(manager.automata.acceptStates)
        && manager.automata.startState == old(manager.automata.startState)
      ensures !(old(updatedTransitions) && manager != null) ==>
        historyBackup == old(historyBackup)
        && (manager != null ==> manager.automata.transitions == old(manager.automata.transitions)
                                && manager.automata.alphabet == old(manager.automata.alphabet))
      ensures old(updatedTransitions) && manager != null ==>
        manager.automata.alphabet == old(manager.automata.alphabet) + Alphabet(edges)
      ensures var rp := Refreshed(old(updatedTransitions) && manager != null, Compile(map[], edges), accept, vs,
                                  old(history), old(currentStep), old(updatedDuringRun));
        && RefreshedTo(rp, old(updatedTransitions), edges, old(history), old(currentStep))
        && (manager != null ==> manager.automata == old(manager.automata))
        && (rp.st.Failed? ==>
              r == Raised(rp.st.fault) && running && appMode == Running && updatedTransitions && currentStep == rp.currentStep)
        && (rp.st == Done ==>
              !updatedTransitions && r.Ok? && Cursor(r.value, currentStep, running, appMode) == Stepped(rp.history, rp.currentStep))
    {
      var st := RefreshBackend(edges, accept, vs);
      if st.Failed? {
        return Raised(st.fault);
      }
      var snap := Advance();
      r := Ok(snap);
    }

    /** `if self.updated_transitions`: the backend update, after which the change is no longer pending. */
    method RefreshBackend(ghost edges: seq<Edge>, ghost accept: set<StateId>, ghost vs: seq<TapeView>) returns (st: Status)
      requires Valid() && Edges(automataManager.transitions) == edges
      requires accept == LiveAccept() && vs == LiveViews()
      modifies this`updatedTransitions, this`historyBackup, this`history, this`currentStep, this`updatedDuringRun,
               manager, Tapes(), Automaton()`transitions, Automaton()`alphabet
      ensures Valid()
      ensures manager != null ==>
        manager.automata.states == old(manager.automata.states) && manager.automata.acceptStates == old(manager.automata.acceptStates)
        && manager.automata.startState == old(manager.automata.startState)
      ensures !(old(updatedTransitions) && manager != null) ==>
        historyBackup == old(historyBackup)
        && (manager != null ==> manager.automata.transitions == old(manager.automata.transitions)
                                && manager.automata.alphabet == old(manager.automata.alphabet))
      ensures old(updatedTransitions) && manager != null ==>
        manager.automata.alphabet == old(manager.automata.alphabet) + Alphabet(edges)
      ensures var rp := Refreshed(old(updatedTransitions) && manager != null, Compile(map[], edges), accept, vs,
                                  old(history), old(currentStep), old(updatedDuringRun));
        && RefreshedTo(rp, old(updatedTransitions), edges, old(history), old(currentStep))
        && st == rp.st && currentStep == rp.currentStep && (manager != null ==> manager.automata == old(manager.automata))
        && updatedTransitions == (old(updatedTransitions) && st.Failed?)
    {
      st := Done;
      if updatedTransitions {
        st := UpdateTransitionsInBackend();
        if st.Failed? {
          return;
        }
        updatedTransitions := false;
      }
    }

    /** The replay of the snapshot at the current step, once the run is on. */
    method Advance() returns (snap: Option<Snapshot>)
      requires running && appMode == Running
      modifies this`currentStep, this`running, this`appMode
      ensures Cursor(snap, currentStep, running, appMode) == Stepped(history, old(currentStep))
    {
      if currentStep < |history| {
        snap := Some(history[currentStep]);
        currentStep := currentStep + 1;
        if currentStep == |history| {
          appMode := Finished;
        }
      } else {
        running := false;
        appMode := Finished;
        snap := None;
      }
    }

    /**
     * `is_accepted`: false on an empty history; otherwise the last snapshot's state must accept and
     * each of its cursors must be at or past the end of the word on the tape with that index.
     */
    method IsAccepted() returns (r: Outcome<bool>)
      ensures r == Verdict(history, EngineOf())
    {
      if |history| == 0 {
        return Ok(false);
      }
      if manager == null {
        return Raised(NoManager);
      }
      var last := history[|history| - 1];
      if last.state !in manager.automata.acceptStates {
        return Ok(false);
      }
      ghost var ws := Words(Views(manager.tapes));
      var ps := last.positions;
      var i := 0;
      while i < |ps|
        invariant 0 <= i <= |ps| && i <= |manager.tapes|
        invariant AllRead(ps, ws) == AllRead(ps[i..], ws[i..])
      {
        if i >= |manager.tapes| {
          return Raised(TapeIndexOutOfRange);
        }
        if ps[i] < |manager.tapes[i].symbols| {
          return Ok(false);
        }
        assert ps[i..][1..] == ps[i + 1..] && ws[i..][1..] == ws[i + 1..];
        i := i + 1;
      }
      return Ok(true);
    }

    /**
     * `restart`: the history is emptied, the replay is rewound, the run and the pending-change flags
     * are cleared, the editor is back to drawing and no transition is flagged any more.
     */
    method Restart()
      requires automataManager.Valid()
      modifies this`history, this`currentStep, this`running, this`updatedDuringRun, this`updatedTransitions,
               this`appMode, Editor()`requiresUpdate
      ensures history == [] && currentStep == 0 && !running && !updatedDuringRun && !updatedTransitions
      ensures appMode == Drawing && AllFlagged(automataManager.transitions, false)
    {
      history := [];
      currentStep := 0;
      running := false;
      updatedDuringRun := false;
      updatedTransitions := false;
      appMode := Drawing;
      SetFlags(false);
    }

    /**
     * `clear_all`: no words, an empty editor whose vectors are one entry wide, an empty history and
     * the run stopped in drawing mode. The backend manager, the backup and the pending-update flag stay.
     */
    method ClearAll()
      modifies this`words, this`history, this`currentStep, this`running, this`updatedDuringRun, this`appMode,
               automataManager
      ensures words == [] && history == [] && currentStep == 0 && !running && !updatedDuringRun
      ensures appMode == Drawing
      ensures automataManager.states == [] && automataManager.transitions == [] && automataManager.wordCount == 1
      ensures manager == old(manager) && historyBackup == old(historyBackup)
      ensures updatedTransitions == old(updatedTransitions)
      ensures automataManager.Valid()
    {
      words := [];
      automataManager.states := [];
      automataManager.transitions := [];
      automataManager.wordCount := 1;
      history := [];
      currentStep := 0;
      running := false;
      updatedDuringRun := false;
      appMode := Drawing;
    }

    /**
     * `initialize_backend`: a new manager over the automaton built from the editor and fresh tapes over
     * the words. Without a start state the history is emptied; otherwise the search runs from the
     * start state with every cursor at 0. An exception (an empty word, or a search that fails) is
     * caught: the manager is then replaced only if the tapes could be built, the history not at all.
     */
    method InitializeBackend() returns (st: Status)
      requires Valid()
      modifies this`manager, this`history, this`currentStep
      ensures Valid()
      ensures HasEmptyWord(words) ==>
        st == Failed(EmptyWord) && manager == old(manager) && history == old(history) && currentStep == old(currentStep)
      ensures !HasEmptyWord(words) ==> manager != null && fresh(manager) && fresh(manager.automata)
      ensures !HasEmptyWord(words) ==>
        var ns, edges := old(Nodes(automataManager.states)), old(Edges(automataManager.transitions));
        && manager.automata.states == Names(ns) && manager.automata.acceptStates == AcceptNames(ns)
        && manager.automata.startState == LastStart(ns)
        && manager.automata.transitions == Compile(map[], edges) && manager.automata.alphabet == Alphabet(edges)
        && (LastStart(ns).None? ==> st == Done && history == [] && currentStep == 0 && Views(manager.tapes) == Rewound(words))
        && (LastStart(ns).Some? ==>
              var root := Root(Rewound(words), [Snapshot(LastStart(ns).value, Zeros(|words|))]);
              var run := Search(Compile(map[], edges), AcceptNames(ns), Rewound(words), [root], {root.id});
              && manager.sim == root && Views(manager.tapes) == run.tapes
              && (run.result.Aborted? ==>
                    st == Failed(run.result.fault) && history == old(history) && currentStep == old(currentStep))
              && (!run.result.Aborted? ==> st == Done && history == run.result.history && currentStep == 0))
    {
      var a := BuildAutomata(automataManager.states, automataManager.transitions);
      var tapes, made := NewTapes(words);
      if made.Failed? {
        return made;
      }
      st := Launch(a, tapes);
    }

    /** The part of `initialize_backend` after the tapes are built: the manager, then the first search. */
    method Launch(a: Automata, tapes: seq<Tape>) returns (st: Status)
      requires automataManager.Valid() && Distinct(tapes)
      modifies this`manager, this`history, this`currentStep
      ensures Valid() && manager != null && fresh(manager) && manager.automata == a && unchanged(a)
      ensures a.startState.None? ==> st == Done && history == [] && currentStep == 0 && Views(manager.tapes) == old(Views(tapes))
      ensures a.startState.Some? ==>
        var root := Root(old(Views(tapes)), [Snapshot(a.startState.value, Zeros(|tapes|))]);
        var run := Search(a.transitions, a.acceptStates, old(Views(tapes)), [root], {root.id});
        && manager.sim == root && Views(manager.tapes) == run.tapes
        && (run.result.Aborted? ==>
              st == Failed(run.result.fault) && history == old(history) && currentStep == old(currentStep))
        && (!run.result.Aborted? ==> st == Done && history == run.result.history && currentStep == 0)
    {
      manager := new Manager(a, tapes);
      if a.startState.None? {
        history, currentStep := [], 0;
        return Done;
      }
      var r := manager.Update([Snapshot(a.startState.value, Zeros(|tapes|))]);
      if r.Aborted? {
        return Failed(r.fault);
      }
      history, currentStep := r.history, 0;
      st := Done;
    }
  }
}
